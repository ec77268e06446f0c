/** What every run of the tunnel protocol guarantees. */
module ChainTheorems {
  import opened Messages
  import opened Line
  import opened Chain
  import opened ChainLife
  import opened ChainData
  import opened ChainClose

  ghost predicate Inv(s: Chain) {
    WellFormed(s) && forall c: ConnID :: Life(s, c) && Down(s, c) && Up(s, c) && Closing(s, c)
  }

  lemma InitInv(relays: nat)
    ensures Inv(Init(relays))
  {
    var s := Init(relays);
    forall c: ConnID
      ensures Life(s, c) && Down(s, c) && Up(s, c) && Closing(s, c)
    {
      EmptyFlow(s.entry.line, c);
      forall k: nat | k <= relays + 1
        ensures Count(s.entry.line, k, Close(c)) == 0
      {
        EmptyCount(s.entry.line, k, Close(c));
      }
    }
  }

  lemma StepInv(s: Chain, step: Step)
    requires Inv(s) && Enabled(s, step)
    ensures Inv(Next(s, step))
  {
    forall c: ConnID
      ensures Life(Next(s, step), c) && Down(Next(s, step), c) && Up(Next(s, step), c) && Closing(Next(s, step), c)
    {
      LifeStep(s, step, c);
      DataStep(s, step, c);
      ClosingStep(s, step, c);
    }
  }

  lemma {:induction false} RunInv(s: Chain, run: seq<Step>)
    requires Inv(s) && Valid(s, run)
    ensures Inv(After(s, run))
    decreases |run|
  {
    if run != [] {
      StepInv(s, run[0]);
      RunInv(Next(s, run[0]), run[1..]);
    }
  }

  /**
   * Demultiplexing: over any number of relays and any interleaving, the bytes
   * handed to a connection's socket are an in-order prefix of the bytes read
   * from that very connection's socket at the other end, in both directions.
   */
  lemma InOrderDelivery(relays: nat, run: seq<Step>, c: ConnID)
    requires Valid(Init(relays), run)
    ensures var s := After(Init(relays), run);
      && Get(s.exit.end.queued, c) <= Get(s.entry.end.taken, c)
      && Get(s.entry.end.queued, c) <= Get(s.exit.end.taken, c)
  {
    InitInv(relays);
    RunInv(Init(relays), run);
    var s := After(Init(relays), run);
    assert Down(s, c) && Up(s, c);
    if Flowing(s.entry, s.exit.end, c) { FlowingIsPrefix(s.entry, s.exit.end, c); }
    if Flowing(s.exit, s.entry.end, c) { FlowingIsPrefix(s.exit, s.entry.end, c); }
  }

  /** No goroutine is between a critical section and its SendMessage, and every queue is empty. */
  predicate Quiet(s: Chain) {
    && (forall i :: 0 <= i < |s.entry.line| ==> s.entry.line[i] == [])
    && (forall i :: 0 <= i < |s.exit.line| ==> s.exit.line[i] == [])
    && s.entry.end.dialing == {} && s.entry.end.owed == {} && s.exit.end.owed == {}
    && s.entry.end.holding == map[] && s.exit.end.holding == map[]
  }

  /** Quiescent agreement: both ends have registered exactly the same connections. */
  lemma QuietAgreement(s: Chain)
    requires Inv(s) && Quiet(s)
    ensures s.entry.end.conns.Keys == s.exit.end.conns.Keys
  {
    forall c: ConnID
      ensures c in s.entry.end.conns <==> c in s.exit.end.conns
    {
      EmptyFlow(s.entry.line, c);
      EmptyCount(s.entry.line, |s.entry.line|, Close(c));
      EmptyCount(s.exit.line, |s.exit.line|, Close(c));
      assert Life(s, c) && Closing(s, c);
    }
  }

  lemma TablesAgree(relays: nat, run: seq<Step>)
    requires Valid(Init(relays), run) && Quiet(After(Init(relays), run))
    ensures var s := After(Init(relays), run); s.entry.end.conns.Keys == s.exit.end.conns.Keys
  {
    InitInv(relays);
    RunInv(Init(relays), run);
    QuietAgreement(After(Init(relays), run));
  }

  lemma QuietDelivers(s: Chain, c: ConnID)
    requires Inv(s) && Quiet(s) && c in s.entry.end.conns && c in s.exit.end.conns
    ensures !s.exit.end.conns[c] ==> Get(s.exit.end.queued, c) == Get(s.entry.end.taken, c)
    ensures !s.entry.end.conns[c] ==> Get(s.entry.end.queued, c) == Get(s.exit.end.taken, c)
  {
    EmptyFlow(s.entry.line, c);
    EmptyFlow(s.exit.line, c);
    assert Down(s, c) && Up(s, c);
    assert Get(s.exit.end.queued, c) + [] + [] == Get(s.exit.end.queued, c);
    assert Get(s.entry.end.queued, c) + [] + [] == Get(s.entry.end.queued, c);
  }

  /** When all is quiet, a connection open at both ends has delivered every byte that was read. */
  lemma NothingLost(relays: nat, run: seq<Step>, c: ConnID)
    requires Valid(Init(relays), run) && Quiet(After(Init(relays), run))
    requires var s := After(Init(relays), run); c in s.entry.end.conns && c in s.exit.end.conns
    ensures var s := After(Init(relays), run);
      && (!s.exit.end.conns[c] ==> Get(s.exit.end.queued, c) == Get(s.entry.end.taken, c))
      && (!s.entry.end.conns[c] ==> Get(s.entry.end.queued, c) == Get(s.exit.end.taken, c))
  {
    InitInv(relays);
    RunInv(Init(relays), run);
    QuietDelivers(After(Init(relays), run), c);
  }

  /**
   * Over a whole run no hop carries, and no end receives, a second Close of the
   * same id in the same direction, even though relays forget their marks.
   */
  lemma OneClosePerHop(relays: nat, run: seq<Step>, hop: nat, c: ConnID)
    requires Valid(Init(relays), run) && hop <= relays + 1
    ensures var s := After(Init(relays), run);
      |s.entry.carried| == |s.exit.carried| == relays + 2 && s.entry.carried[hop][c] <= 1 && s.exit.carried[hop][c] <= 1
  {
    InitInv(relays);
    RunInv(Init(relays), run);
    assert Closing(After(Init(relays), run), c);
  }

  // ---- Frames ----

  predicate Fits(m: Message) {
    m.Data? ==> |m.payload| <= MAX_PAYLOAD_SIZE
  }

  predicate AllFit(h: Half) {
    && (forall c :: c in h.end.holding ==> |h.end.holding[c]| <= MAX_PAYLOAD_SIZE)
    && forall i, m :: 0 <= i < |h.line| && m in h.line[i] ==> Fits(m)
  }

  lemma PostFits(h: Half, m: Message, e: End)
    requires h.line != [] && h.carried != [] && AllFit(h) && Fits(m)
    requires forall c :: c in e.holding ==> c in h.end.holding && e.holding[c] == h.end.holding[c]
    ensures AllFit(Post(h, m).(end := e))
  {
  }

  lemma RelayFits(h: Half, i: nat, marks: set<ConnID>)
    requires i + 1 < |h.line| && i + 1 < |h.carried| && h.line[i] != [] && AllFit(h)
    ensures AllFit(RelayLine(h, i, marks))
  {
    assert h.line[i][0] in h.line[i];
  }

  lemma ArriveFits(h: Half, e: End)
    requires h.line != [] && |h.carried| == |h.line| + 1 && h.line[|h.line| - 1] != [] && AllFit(h)
    ensures AllFit(Arrive(h))
  {
  }

  lemma FitStep(s: Chain, step: Step)
    requires WellFormed(s) && Enabled(s, step) && AllFit(s.entry) && AllFit(s.exit)
    ensures AllFit(Next(s, step).entry) && AllFit(Next(s, step).exit)
  {
    var s' := Next(s, step);
    match step
    case SendConnect(c) => PostFits(s.entry, Connect(c), s'.entry.end);
    case SendData(side, c) =>
      var h := HalfOf(s, side);
      PostFits(h, Data(c, h.end.holding[c]), HalfOf(s', side).end);
    case SendClose(side, c) =>
      var h := HalfOf(s, side);
      PostFits(h, Close(c), HalfOf(s', side).end);
    case RelayDown(r) => RelayFits(s.entry, r, s.marks[r]);
    case RelayUp(r) => RelayFits(s.exit, UpHop(s, r), s.marks[r]);
    case RecvExit(ok) =>
      ArriveFits(s.entry, s.entry.end);
      var m := s.entry.line[|s.marks|][0];
      if m.Connect? && !ok { PostFits(s.exit, Close(m.id), s'.exit.end); }
    case RecvEntry(ok) => ArriveFits(s.exit, s.exit.end);
    case _ =>
  }

  /** Every message on any queue of any run can be encoded: no payload exceeds a frame. */
  lemma {:induction false} FramesFit(s: Chain, run: seq<Step>)
    requires WellFormed(s) && Valid(s, run) && AllFit(s.entry) && AllFit(s.exit)
    ensures AllFit(After(s, run).entry) && AllFit(After(s, run).exit)
    decreases |run|
  {
    if run != [] {
      FitStep(s, run[0]);
      FramesFit(Next(s, run[0]), run[1..]);
    }
  }
}
