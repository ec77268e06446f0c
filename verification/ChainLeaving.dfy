/**
 * Who attends to a connection, and what becomes of one that somebody leaves:
 * every registered id has a goroutine that will close it, and an id that has
 * been closed at one end is gone from both tables once the chain is quiet.
 */
module ChainLeaving {
  import opened Messages
  import opened Line
  import opened Chain
  import opened ChainLife
  import opened ChainClose
  import opened ChainTheorems

  // ---- A goroutine for every registered id ----

  /** The goroutine of c at this end is dialling, reading or sending; it closes c when it ends. */
  predicate Attended(e: End, c: ConnID) {
    c in e.conns ==> c in e.dialing || c in e.reading || c in e.holding
  }

  predicate BothAttended(s: Chain, c: ConnID) {
    Attended(s.entry.end, c) && Attended(s.exit.end, c)
  }

  ghost predicate AllAttended(s: Chain) {
    forall c: ConnID :: BothAttended(s, c)
  }

  lemma AttendedSending(s: Chain, step: Step, c: ConnID)
    requires WellFormed(s) && Enabled(s, step) && BothAttended(s, c) && !step.RecvExit? && !step.RecvEntry?
    ensures BothAttended(Next(s, step), c)
  {
  }

  lemma AttendedRecvExit(s: Chain, ok: bool, c: ConnID)
    requires WellFormed(s) && Enabled(s, RecvExit(ok)) && BothAttended(s, c)
    ensures BothAttended(Next(s, RecvExit(ok)), c)
  {
  }

  lemma AttendedRecvEntry(s: Chain, ok: bool, c: ConnID)
    requires WellFormed(s) && Enabled(s, RecvEntry(ok)) && BothAttended(s, c)
    ensures BothAttended(Next(s, RecvEntry(ok)), c)
  {
  }

  lemma AttendedStep(s: Chain, step: Step)
    requires WellFormed(s) && Enabled(s, step) && AllAttended(s)
    ensures AllAttended(Next(s, step))
  {
    forall c: ConnID
      ensures BothAttended(Next(s, step), c)
    {
      assert BothAttended(s, c);
      match step
      case RecvExit(ok) => AttendedRecvExit(s, ok, c);
      case RecvEntry(ok) => AttendedRecvEntry(s, ok, c);
      case _ => AttendedSending(s, step, c);
    }
  }

  lemma {:induction false} AttendedRun(s: Chain, run: seq<Step>)
    requires WellFormed(s) && Valid(s, run) && AllAttended(s)
    ensures AllAttended(After(s, run))
    decreases |run|
  {
    if run != [] {
      AttendedStep(s, run[0]);
      AttendedRun(Next(s, run[0]), run[1..]);
    }
  }

  /**
   * Over every run, a registered id has a goroutine at its own end; when all is
   * quiet, that goroutine is reading from the socket, at both ends.
   */
  lemma EveryConnectionIsRead(relays: nat, run: seq<Step>, c: ConnID)
    requires Valid(Init(relays), run)
    ensures var s := After(Init(relays), run);
      && BothAttended(s, c)
      && (Quiet(s) && (c in s.entry.end.conns || c in s.exit.end.conns) ==>
            c in s.entry.end.reading && c in s.exit.end.reading)
  {
    AttendedRun(Init(relays), run);
    InitInv(relays);
    RunInv(Init(relays), run);
    var s := After(Init(relays), run);
    if Quiet(s) {
      QuietAgreement(s);
    }
    assert Life(s, c);
  }

  // ---- Leaving for good ----

  /** The end has let go of c: its Close is owed or sent. */
  predicate Left(e: End, c: ConnID) {
    c in e.owed || c in e.closed
  }

  lemma EndedLeaves(s: Chain, side: Side, c: ConnID)
    requires Inv(s) && Enabled(s, ReaderEnd(side, c))
    ensures Left(HalfOf(Next(s, ReaderEnd(side, c)), side).end, c)
  {
    assert Life(s, c);
  }

  lemma LeftSending(s: Chain, step: Step, side: Side, c: ConnID)
    requires WellFormed(s) && Enabled(s, step) && Left(HalfOf(s, side).end, c) && !step.RecvExit? && !step.RecvEntry?
    ensures Left(HalfOf(Next(s, step), side).end, c)
  {
  }

  lemma LeftReceiving(s: Chain, step: Step, side: Side, c: ConnID)
    requires WellFormed(s) && Enabled(s, step) && Left(HalfOf(s, side).end, c) && (step.RecvExit? || step.RecvEntry?)
    ensures Left(HalfOf(Next(s, step), side).end, c)
  {
  }

  lemma {:induction false} EndedLeavesForGood(s: Chain, run: seq<Step>, side: Side, c: ConnID)
    requires Inv(s) && Valid(s, run) && (Left(HalfOf(s, side).end, c) || ReaderEnd(side, c) in run)
    ensures Left(HalfOf(After(s, run), side).end, c)
    decreases |run|
  {
    if run != [] {
      StepInv(s, run[0]);
      if run[0] == ReaderEnd(side, c) {
        EndedLeaves(s, side, c);
      } else if Left(HalfOf(s, side).end, c) {
        if run[0].RecvExit? || run[0].RecvEntry? {
          LeftReceiving(s, run[0], side, c);
        } else {
          LeftSending(s, run[0], side, c);
        }
      } else {
        assert run == [run[0]] + run[1..];
      }
      EndedLeavesForGood(Next(s, run[0]), run[1..], side, c);
    }
  }

  lemma GoneAtRest(s: Chain, run: seq<Step>, side: Side, c: ConnID)
    requires Inv(s) && Valid(s, run) && (Left(HalfOf(s, side).end, c) || ReaderEnd(side, c) in run) && Quiet(After(s, run))
    ensures var t := After(s, run);
      c !in t.entry.end.conns && c !in t.exit.end.conns && c in HalfOf(t, side).end.closed
  {
    RunInv(s, run);
    var t := After(s, run);
    EndedLeavesForGood(s, run, side, c);
    assert Life(t, c);
    QuietAgreement(t);
  }

  /**
   * Whoever hangs up, at either end: once the chain is quiet the connection is in
   * neither table, and the end that left it has sent its Close.
   */
  lemma EndedIsGone(relays: nat, run: seq<Step>, side: Side, c: ConnID)
    requires Valid(Init(relays), run) && ReaderEnd(side, c) in run && Quiet(After(Init(relays), run))
    ensures var s := After(Init(relays), run);
      c !in s.entry.end.conns && c !in s.exit.end.conns && c in HalfOf(s, side).end.closed
  {
    InitInv(relays);
    GoneAtRest(Init(relays), run, side, c);
  }

  /** The next message at this end. */
  function Arriving(s: Chain, side: Side): Queue
    requires WellFormed(s)
  {
    if side.Exit? then s.entry.line[|s.marks|] else s.exit.line[|s.marks|]
  }

  /** What arrives cannot be served: a dial that fails, or data for an open connection whose write queue takes no more. */
  predicate Refuses(s: Chain, side: Side, c: ConnID)
    requires WellFormed(s)
  {
    var q, e := Arriving(s, side), HalfOf(s, side).end;
    q != [] && q[0].id == c && ((q[0].Connect? && side.Exit?) || (q[0].Data? && c in e.conns && !e.conns[c]))
  }

  function Refusal(side: Side): Step {
    if side.Exit? then RecvExit(false) else RecvEntry(false)
  }

  /**
   * A connection that one end cannot serve, because its dial fails or its write
   * queue is full, is closed there at once, and once the chain is quiet it is in
   * neither table.
   */
  lemma RefusedIsGone(relays: nat, before: seq<Step>, side: Side, c: ConnID, after: seq<Step>)
    requires Valid(Init(relays), before)
    requires var s := After(Init(relays), before); Refuses(s, side, c) && Valid(Next(s, Refusal(side)), after)
    ensures var s := Next(After(Init(relays), before), Refusal(side));
      && Left(HalfOf(s, side).end, c) && c !in HalfOf(s, side).end.conns
      && var t := After(s, after);
         Quiet(t) ==> c !in t.entry.end.conns && c !in t.exit.end.conns && c in HalfOf(t, side).end.closed
  {
    InitInv(relays);
    RunInv(Init(relays), before);
    var s := After(Init(relays), before);
    StepInv(s, Refusal(side));
    assert Life(Next(s, Refusal(side)), c);
    if Quiet(After(Next(s, Refusal(side)), after)) {
      GoneAtRest(Next(s, Refusal(side)), after, side, c);
    }
  }

  // ---- A write queue that has closed itself ----

  /** No byte is accepted for c any more: its write queue has closed itself, or the end has let go of c. */
  predicate Deaf(e: End, c: ConnID) {
    (c in e.conns && e.conns[c]) || Left(e, c)
  }

  predicate StaysDeaf(e: End, e': End, c: ConnID) {
    Deaf(e', c) && Get(e'.queued, c) == Get(e.queued, c)
  }

  lemma DeafAccept(s: Chain, side: Side, c: ConnID)
    requires WellFormed(s) && Enabled(s, Accept) && Life(s, c) && Deaf(HalfOf(s, side).end, c)
    ensures StaysDeaf(HalfOf(s, side).end, HalfOf(Next(s, Accept), side).end, c)
  {
  }

  lemma DeafLocal(s: Chain, step: Step, side: Side, c: ConnID)
    requires WellFormed(s) && Enabled(s, step) && Deaf(HalfOf(s, side).end, c)
    requires !step.Accept? && !step.RecvExit? && !step.RecvEntry?
    ensures StaysDeaf(HalfOf(s, side).end, HalfOf(Next(s, step), side).end, c)
  {
  }

  lemma DeafDeliver(e: End, d: ConnID, data: Bytes, ok: bool, c: ConnID)
    requires Deaf(e, c) && (c in e.conns ==> !Left(e, c))
    ensures StaysDeaf(e, Deliver(e, d, data, ok), c) && StaysDeaf(e, Detach(e, d), c)
  {
  }

  lemma DeafRecvExit(s: Chain, ok: bool, side: Side, c: ConnID)
    requires WellFormed(s) && Life(s, c) && Enabled(s, RecvExit(ok)) && Deaf(HalfOf(s, side).end, c)
    ensures StaysDeaf(HalfOf(s, side).end, HalfOf(Next(s, RecvExit(ok)), side).end, c)
  {
    var m := s.entry.line[|s.marks|][0];
    OldestAtExit(s, c);
    if side.Exit? && m.Data? { DeafDeliver(s.exit.end, m.id, m.payload, ok, c); }
    if side.Exit? && m.Close? { DeafDeliver(s.exit.end, m.id, [], ok, c); }
  }

  lemma DeafRecvEntry(s: Chain, ok: bool, side: Side, c: ConnID)
    requires WellFormed(s) && Life(s, c) && Enabled(s, RecvEntry(ok)) && Deaf(HalfOf(s, side).end, c)
    ensures StaysDeaf(HalfOf(s, side).end, HalfOf(Next(s, RecvEntry(ok)), side).end, c)
  {
    var m := s.exit.line[|s.marks|][0];
    if side.Entry? { DeafDeliver(s.entry.end, m.id, if m.Data? then m.payload else [], ok, c); }
  }

  lemma DeafStep(s: Chain, step: Step, side: Side, c: ConnID)
    requires Inv(s) && Enabled(s, step) && Deaf(HalfOf(s, side).end, c)
    ensures StaysDeaf(HalfOf(s, side).end, HalfOf(Next(s, step), side).end, c)
  {
    assert Life(s, c);
    match step
    case Accept => DeafAccept(s, side, c);
    case RecvExit(ok) => DeafRecvExit(s, ok, side, c);
    case RecvEntry(ok) => DeafRecvEntry(s, ok, side, c);
    case _ => DeafLocal(s, step, side, c);
  }

  lemma {:induction false} DeafRun(s: Chain, run: seq<Step>, side: Side, c: ConnID)
    requires Inv(s) && Valid(s, run) && Deaf(HalfOf(s, side).end, c)
    ensures Get(HalfOf(After(s, run), side).end.queued, c) == Get(HalfOf(s, side).end.queued, c)
    decreases |run|
  {
    if run != [] {
      DeafStep(s, run[0], side, c);
      StepInv(s, run[0]);
      DeafRun(Next(s, run[0]), run[1..], side, c);
    }
  }

  /** After a failed socket write, or a hang-up, no further byte is handed to that socket, whatever still arrives. */
  lemma NothingAfterTheEnd(relays: nat, before: seq<Step>, step: Step, after: seq<Step>, side: Side, c: ConnID)
    requires Valid(Init(relays), before) && step in {WriterFails(side, c), ReaderEnd(side, c)}
    requires var s := After(Init(relays), before); Enabled(s, step) && Valid(Next(s, step), after)
    ensures var s := After(Init(relays), before);
      Get(HalfOf(After(Next(s, step), after), side).end.queued, c) == Get(HalfOf(s, side).end.queued, c)
  {
    InitInv(relays);
    RunInv(Init(relays), before);
    var s := After(Init(relays), before);
    if step.ReaderEnd? { EndedLeaves(s, side, c); }
    StepInv(s, step);
    DeafRun(Next(s, step), after, side, c);
  }

  // ---- What a relay lets through ----

  /** Closes of c that relay r has passed on, towards the exit and towards the entry. */
  function PassedOn(s: Chain, r: nat, c: ConnID): nat
    requires WellFormed(s) && r < |s.marks|
  {
    s.entry.carried[r + 1][c] + s.exit.carried[UpHop(s, r) + 1][c]
  }

  lemma PassedOnStep(s: Chain, step: Step, r: nat, c: ConnID)
    requires WellFormed(s) && Enabled(s, step) && r < |s.marks| && step != Expire(r, c)
    requires PassedOn(s, r, c) <= if c in s.marks[r] then 1 else 0
    ensures var s' := Next(s, step); PassedOn(s', r, c) <= if c in s'.marks[r] then 1 else 0
  {
  }

  lemma {:induction false} PassedOnRun(s: Chain, run: seq<Step>, r: nat, c: ConnID)
    requires WellFormed(s) && Valid(s, run) && r < |s.marks| && Expire(r, c) !in run
    requires PassedOn(s, r, c) <= if c in s.marks[r] then 1 else 0
    ensures var s' := After(s, run); PassedOn(s', r, c) <= if c in s'.marks[r] then 1 else 0
    decreases |run|
  {
    if run != [] {
      PassedOnStep(s, run[0], r, c);
      assert run == [run[0]] + run[1..];
      PassedOnRun(Next(s, run[0]), run[1..], r, c);
    }
  }

  /**
   * What the marks are for: as long as a relay has not forgotten an id, it passes
   * on at most one Close of it, both directions taken together. A Close that
   * crosses another one, or answers it, ends at the first relay that knows.
   */
  lemma OneCloseUntilForgotten(relays: nat, run: seq<Step>, r: nat, c: ConnID)
    requires Valid(Init(relays), run) && r < relays && Expire(r, c) !in run
    ensures PassedOn(After(Init(relays), run), r, c) <= 1
  {
    PassedOnRun(Init(relays), run, r, c);
  }
}
