/** From queues of messages to bytes: what the tunnels of a run carry, as frames. */
module ChainFrames {
  import opened Messages
  import opened Line
  import opened Chain
  import opened ChainLife
  import opened ChainTheorems
  import opened Frames
  import Wire

  lemma {:induction false} OfHolds(q: Queue, j: nat)
    requires j < |q|
    ensures Of(q, q[j].id) != []
  {
    if j > 0 {
      OfHolds(q[1..], j - 1);
    }
  }

  lemma {:induction false} FlowHolds(line: Hops, i: nat, j: nat)
    requires i < |line| && j < |line[i]|
    ensures Flow(line, line[i][j].id) != []
  {
    if i == 0 {
      OfHolds(line[0], j);
    } else {
      FlowHolds(line[1..], i - 1, j);
    }
  }

  lemma {:induction false} IDsBelowFlag(s: Chain, run: seq<Step>)
    requires WellFormed(s) && Valid(s, run) && s.nextID < UDP_FLAG
    ensures After(s, run).nextID < UDP_FLAG
    decreases |run|
  {
    if run != [] {
      IDsBelowFlag(Next(s, run[0]), run[1..]);
    }
  }

  /** A queue whose bytes can be read back. */
  predicate Carried(q: Queue) {
    forall j :: 0 <= j < |q| ==> q[j].id < UDP_FLAG && (q[j].Data? ==> |q[j].payload| <= MAX_PAYLOAD_SIZE)
  }

  lemma HopCarried(s: Chain, h: Half, i: nat)
    requires Inv(s) && s.nextID < UDP_FLAG && (h == s.entry || h == s.exit) && AllFit(h) && i < |h.line|
    ensures Carried(h.line[i])
  {
    forall j | 0 <= j < |h.line[i]|
      ensures h.line[i][j].id < UDP_FLAG && (h.line[i][j].Data? ==> |h.line[i][j].payload| <= MAX_PAYLOAD_SIZE)
    {
      var m := h.line[i][j];
      assert m in h.line[i] && Fits(m);
      FlowHolds(h.line, i, j);
      assert Life(s, m.id);
    }
  }

  /**
   * At every moment of every run, the bytes of each tunnel, in each direction,
   * make the receiving read loop call its handler for exactly the messages in
   * flight, in their order: the queues of the protocol are what the frames carry.
   */
  lemma TunnelsCarryTheQueues(relays: nat, run: seq<Step>, i: nat, down: bool)
    requires Valid(Init(relays), run) && i <= relays
    ensures var s := After(Init(relays), run);
      |s.entry.line| == |s.exit.line| == relays + 1 && Carried(if down then s.entry.line[i] else s.exit.line[i])
    ensures var s := After(Init(relays), run);
      var q := if down then s.entry.line[i] else s.exit.line[i];
      && (forall j :: 0 <= j < |q| ==> Sendable(OnWireAll(q)[j]))
      && var (frames, e) := DecodedAll(EncodedAll(OnWireAll(q)));
         e == Wire.EndOfFile && |frames| == |q| && forall j :: 0 <= j < |q| ==> Dispatch(frames[j]) == CallFor(q[j])
  {
    InitInv(relays);
    RunInv(Init(relays), run);
    FramesFit(Init(relays), run);
    IDsBelowFlag(Init(relays), run);
    var s := After(Init(relays), run);
    HopCarried(s, if down then s.entry else s.exit, i);
    QueueOverWire(if down then s.entry.line[i] else s.exit.line[i]);
  }
}
