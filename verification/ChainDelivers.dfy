/**
 * What gets through: as long as nobody hangs up, refuses or stops reading, the
 * agents alone hand every byte that was read to the socket at the other end.
 */
module ChainDelivers {
  import opened Messages
  import opened Line
  import opened Chain
  import opened ChainLife
  import opened ChainClose
  import opened ChainTheorems
  import opened ChainSettles
  import ChainLeaving

  /** A step of the agents in which no dial is refused and no write queue is full. */
  predicate Kind(step: Step) {
    Internal(step) && (step.RecvExit? || step.RecvEntry? ==> step.ok)
  }

  predicate AllKind(run: seq<Step>) {
    forall i :: 0 <= i < |run| ==> Kind(run[i])
  }

  predicate Accepting(e: End, c: ConnID) {
    c in e.conns && !e.conns[c]
  }

  /** Neither end has closed c; the exit may not have heard of it yet. */
  predicate HeldOpen(s: Chain, c: ConnID) {
    Accepting(s.entry.end, c) && (c in s.connected ==> Accepting(s.exit.end, c))
  }

  /** A Close that arrives was sent by an end that has closed the id. */
  lemma ArrivingClose(h: Half, c: ConnID)
    requires h.line != [] && |h.carried| == |h.line| + 1 && h.line[|h.line| - 1] != [] && ClosesOk(h, c)
    requires h.line[|h.line| - 1][0] == Close(c)
    ensures c in h.end.closed
  {
    PopCount(h.line, |h.line| - 1, |h.line|, Close(c));
    assert h.carried[|h.line|][c] + Count(h.line, |h.line|, Close(c)) <= if c in h.end.closed then 1 else 0;
  }

  lemma HeldOpenSending(s: Chain, step: Step, c: ConnID)
    requires WellFormed(s) && Enabled(s, step) && Internal(step) && HeldOpen(s, c) && !step.RecvExit? && !step.RecvEntry?
    ensures HeldOpen(Next(s, step), c)
  {
  }

  lemma HeldOpenRecvExit(s: Chain, c: ConnID)
    requires WellFormed(s) && Life(s, c) && Closing(s, c) && Enabled(s, RecvExit(true)) && HeldOpen(s, c)
    ensures HeldOpen(Next(s, RecvExit(true)), c)
  {
    if s.entry.line[|s.marks|][0] == Close(c) { ArrivingClose(s.entry, c); }
  }

  lemma HeldOpenRecvEntry(s: Chain, c: ConnID)
    requires WellFormed(s) && Life(s, c) && Closing(s, c) && Enabled(s, RecvEntry(true)) && HeldOpen(s, c)
    ensures HeldOpen(Next(s, RecvEntry(true)), c)
  {
    if s.exit.line[|s.marks|][0] == Close(c) { ArrivingClose(s.exit, c); }
  }

  lemma HeldOpenStep(s: Chain, step: Step, c: ConnID)
    requires Inv(s) && Enabled(s, step) && Kind(step) && HeldOpen(s, c)
    ensures HeldOpen(Next(s, step), c)
  {
    assert Life(s, c) && Closing(s, c);
    match step
    case RecvExit(ok) => HeldOpenRecvExit(s, c);
    case RecvEntry(ok) => HeldOpenRecvEntry(s, c);
    case _ => HeldOpenSending(s, step, c);
  }

  predicate SameTaken(s: Chain, t: Chain) {
    t.entry.end.taken == s.entry.end.taken && t.exit.end.taken == s.exit.end.taken
  }

  lemma NothingTaken(s: Chain, step: Step)
    requires WellFormed(s) && Enabled(s, step) && Internal(step)
    ensures SameTaken(s, Next(s, step))
  {
    match step
    case RecvExit(ok) =>
    case RecvEntry(ok) =>
    case _ =>
  }

  /** Until all is quiet there is always a kind step to take. */
  lemma SomeKindStep(s: Chain) returns (step: Step)
    requires Inv(s) && !Quiet(s)
    ensures Enabled(s, step) && Kind(step)
  {
    assert s.exit.end.dialing == {} by {
      forall c: ConnID ensures c !in s.exit.end.dialing { assert Life(s, c); }
    }
    step := SomeStep(s);
    step := if step.RecvExit? then RecvExit(true) else if step.RecvEntry? then RecvEntry(true) else step;
  }

  lemma {:induction false} SettleKindly(s: Chain) returns (more: seq<Step>)
    requires Inv(s)
    ensures AllKind(more) && Valid(s, more)
    ensures var t := After(s, more);
      && Inv(t) && Quiet(t) && (forall c :: HeldOpen(s, c) ==> HeldOpen(t, c))
      && SameTaken(s, t)
    decreases Work(s)
  {
    if Quiet(s) {
      more := [];
    } else {
      var step := SomeKindStep(s);
      StepWork(s, step);
      StepInv(s, step);
      NothingTaken(s, step);
      forall c | HeldOpen(s, c) ensures HeldOpen(Next(s, step), c) { HeldOpenStep(s, step, c); }
      var rest := SettleKindly(Next(s, step));
      more := [step] + rest;
      assert more[1..] == rest;
    }
  }

  lemma OpenAtRest(s: Chain, c: ConnID)
    requires Inv(s) && Quiet(s) && HeldOpen(s, c)
    ensures Accepting(s.exit.end, c)
    ensures Get(s.exit.end.queued, c) == Get(s.entry.end.taken, c) && Get(s.entry.end.queued, c) == Get(s.exit.end.taken, c)
  {
    QuietAgreement(s);
    assert Life(s, c);
    QuietDelivers(s, c);
  }

  /**
   * Delivery: after any run, kind steps of the agents alone bring the chain to
   * rest, and then every connection that neither end has closed is open at both
   * ends, with every byte read at one end, before or during that run, handed to
   * the socket at the other.
   */
  lemma EveryByteArrives(relays: nat, run: seq<Step>) returns (more: seq<Step>)
    requires Valid(Init(relays), run)
    ensures AllKind(more) && Valid(Init(relays), run + more) && Quiet(After(Init(relays), run + more))
    ensures var s, t := After(Init(relays), run), After(Init(relays), run + more);
      forall c :: HeldOpen(s, c) ==>
        && Accepting(t.entry.end, c) && Accepting(t.exit.end, c)
        && Get(t.exit.end.queued, c) == Get(s.entry.end.taken, c) && Get(t.entry.end.queued, c) == Get(s.exit.end.taken, c)
  {
    InitInv(relays);
    RunInv(Init(relays), run);
    var s := After(Init(relays), run);
    more := SettleKindly(s);
    AfterConcat(Init(relays), run, more);
    var t := After(s, more);
    forall c | HeldOpen(s, c)
      ensures Accepting(t.exit.end, c) && Get(t.exit.end.queued, c) == Get(s.entry.end.taken, c)
      ensures Accepting(t.entry.end, c) && Get(t.entry.end.queued, c) == Get(s.exit.end.taken, c)
    {
      OpenAtRest(t, c);
    }
  }

  // ---- One connection from beginning to end ----

  /** One step, and then kind steps of the agents until the chain is quiet. */
  lemma StepAndSettle(s: Chain, step: Step) returns (run: seq<Step>)
    requires Inv(s) && Enabled(s, step)
    ensures Valid(s, run) && step in run
    ensures var t := After(s, run);
      && Inv(t) && Quiet(t) && SameTaken(Next(s, step), t) && forall c :: HeldOpen(Next(s, step), c) ==> HeldOpen(t, c)
  {
    StepInv(s, step);
    var rest := SettleKindly(Next(s, step));
    run := [step] + rest;
    assert run[1..] == rest;
  }

  /** A connection that is read at both ends, with nothing under way. */
  ghost predicate OpenQuietly(s: Chain, c: ConnID) {
    Inv(s) && ChainLeaving.AllAttended(s) && Quiet(s) && HeldOpen(s, c)
  }

  lemma OpenIsRead(s: Chain, c: ConnID)
    requires OpenQuietly(s, c)
    ensures c in s.entry.end.reading && c in s.exit.end.reading
  {
    OpenAtRest(s, c);
    assert Life(s, c) && ChainLeaving.BothAttended(s, c);
  }

  lemma Opens(s: Chain) returns (run: seq<Step>)
    requires Inv(s) && ChainLeaving.AllAttended(s) && s.nextID + 1 < UDP_FLAG
    ensures Valid(s, run) && OpenQuietly(After(s, run), s.nextID + 1)
    ensures Get(After(s, run).entry.end.taken, s.nextID + 1) == [] && Get(After(s, run).exit.end.taken, s.nextID + 1) == []
  {
    assert Life(s, s.nextID + 1);
    run := StepAndSettle(s, Accept);
    ChainLeaving.AttendedRun(s, run);
  }

  lemma Sends(s: Chain, side: Side, c: ConnID, data: Bytes) returns (run: seq<Step>)
    requires OpenQuietly(s, c) && |data| <= MAX_PAYLOAD_SIZE
    ensures Valid(s, run) && OpenQuietly(After(s, run), c)
    ensures var t := After(s, run);
      && Get(t.entry.end.taken, c) == Get(s.entry.end.taken, c) + (if side.Entry? then data else [])
      && Get(t.exit.end.taken, c) == Get(s.exit.end.taken, c) + (if side.Exit? then data else [])
  {
    OpenIsRead(s, c);
    run := StepAndSettle(s, Read(side, c, data));
    ChainLeaving.AttendedRun(s, run);
  }

  /** Open at both ends, with the request handed to the target and the reply to the client. */
  predicate Served(s: Chain, c: ConnID, request: Bytes, reply: Bytes) {
    && c in s.entry.end.conns && c in s.exit.end.conns
    && Get(s.exit.end.queued, c) == request && Get(s.entry.end.queued, c) == reply
  }

  predicate Forgotten(s: Chain, c: ConnID) {
    Quiet(s) && c !in s.entry.end.conns && c !in s.exit.end.conns
  }

  /** A fresh connection is opened, asks, and is answered. */
  lemma Serves(s: Chain, request: Bytes, reply: Bytes) returns (run: seq<Step>)
    requires Inv(s) && ChainLeaving.AllAttended(s) && s.nextID + 1 < UDP_FLAG
    requires |request| <= MAX_PAYLOAD_SIZE && |reply| <= MAX_PAYLOAD_SIZE
    ensures Valid(s, run) && OpenQuietly(After(s, run), s.nextID + 1) && Served(After(s, run), s.nextID + 1, request, reply)
  {
    var opens := Opens(s);
    var asks := Sends(After(s, opens), Entry, s.nextID + 1, request);
    AfterConcat(s, opens, asks);
    var answers := Sends(After(s, opens + asks), Exit, s.nextID + 1, reply);
    AfterConcat(s, opens + asks, answers);
    run := opens + asks + answers;
    OpenAtRest(After(s, run), s.nextID + 1);
  }

  lemma HangsUp(s: Chain, side: Side, c: ConnID) returns (run: seq<Step>)
    requires OpenQuietly(s, c)
    ensures Valid(s, run) && Forgotten(After(s, run), c)
  {
    OpenIsRead(s, c);
    run := StepAndSettle(s, ReaderEnd(side, c));
    ChainLeaving.GoneAtRest(s, run, side, c);
  }

  /**
   * From any reachable state a further client can connect, have a request
   * delivered and a reply brought back, and hang up at either end, and is then
   * forgotten at both.
   */
  lemma ConnectionFromBeginningToEnd(relays: nat, run: seq<Step>, request: Bytes, reply: Bytes, side: Side)
      returns (serve: seq<Step>, leave: seq<Step>)
    requires Valid(Init(relays), run) && After(Init(relays), run).nextID + 1 < UDP_FLAG
    requires |request| <= MAX_PAYLOAD_SIZE && |reply| <= MAX_PAYLOAD_SIZE
    ensures Valid(Init(relays), run + serve) && Valid(Init(relays), (run + serve) + leave)
    ensures Served(After(Init(relays), run + serve), After(Init(relays), run).nextID + 1, request, reply)
    ensures Forgotten(After(Init(relays), (run + serve) + leave), After(Init(relays), run).nextID + 1)
  {
    InitInv(relays);
    RunInv(Init(relays), run);
    ChainLeaving.AttendedRun(Init(relays), run);
    var s := After(Init(relays), run);
    serve := Serves(s, request, reply);
    AfterConcat(Init(relays), run, serve);
    leave := HangsUp(After(s, serve), side, s.nextID + 1);
    AfterConcat(Init(relays), run + serve, leave);
  }
}
