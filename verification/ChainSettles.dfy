/**
 * Traffic dies out: once nothing new happens at the sockets, every chain of
 * sends and deliveries ends, and it ends quiet.
 */
module ChainSettles {
  import opened Messages
  import opened Line
  import opened Chain
  import ChainLife
  import opened ChainTheorems
  import ChainLeaving

  /** Steps the agents take on their own: everything but new connections, socket events and clean-up. */
  predicate Internal(step: Step) {
    step.SendConnect? || step.SendData? || step.SendClose? || step.RelayDown? || step.RelayUp? || step.RecvExit? || step.RecvEntry?
  }

  predicate AllInternal(run: seq<Step>) {
    forall i :: 0 <= i < |run| ==> Internal(run[i])
  }

  // ---- What is left to do ----

  /** hops: hops still to go; a Connect may still open a connection or draw a Close. */
  function MessageWork(m: Message, hops: nat, total: nat): nat {
    hops + if m.Connect? then total + 2 else 0
  }

  function QueueWork(q: Queue, hops: nat, total: nat): nat {
    if q == [] then 0 else MessageWork(q[0], hops, total) + QueueWork(q[1..], hops, total)
  }

  function LineWork(line: Hops, total: nat): nat {
    if line == [] then 0 else QueueWork(line[0], |line|, total) + LineWork(line[1..], total)
  }

  /** n pieces of work of size w. */
  function Cost(n: nat, w: nat): nat {
    if n == 0 then 0 else w + Cost(n - 1, w)
  }

  /** Each registered id can still cost one Close, each held chunk one Data, each dialling id one Connect. */
  function EndWork(e: End, total: nat): nat {
    Cost(|e.conns.Keys|, total + 2) + Cost(|e.owed|, total + 1) + Cost(|e.holding.Keys|, total + 1) + Cost(|e.dialing|, 2 * total + 3)
  }

  function HalfWork(h: Half, total: nat): nat {
    LineWork(h.line, total) + EndWork(h.end, total)
  }

  function Work(s: Chain): nat {
    HalfWork(s.entry, |s.marks| + 1) + HalfWork(s.exit, |s.marks| + 1)
  }

  // ---- Lines ----

  lemma {:induction false} AppendWork(q: Queue, m: Message, hops: nat, total: nat)
    ensures QueueWork(q + [m], hops, total) == QueueWork(q, hops, total) + MessageWork(m, hops, total)
  {
    if q == [] {
      assert q + [m] == [m];
      assert QueueWork([m], hops, total) == MessageWork(m, hops, total) + QueueWork([], hops, total);
    } else {
      assert (q + [m])[1..] == q[1..] + [m];
      AppendWork(q[1..], m, hops, total);
    }
  }

  lemma SendWork(line: Hops, m: Message, total: nat)
    requires line != []
    ensures LineWork(Send(line, m), total) == LineWork(line, total) + MessageWork(m, |line|, total)
  {
    AppendWork(line[0], m, |line|, total);
    assert Send(line, m)[1..] == line[1..];
  }

  lemma {:induction false} PopWork(line: Hops, i: nat, total: nat)
    requires i < |line| && line[i] != []
    ensures LineWork(Pop(line, i), total) == LineWork(line, total) - MessageWork(line[i][0], |line| - i, total)
  {
    if i == 0 {
      assert Pop(line, 0)[1..] == line[1..];
    } else {
      assert Pop(line, i)[1..] == Pop(line[1..], i - 1);
      PopWork(line[1..], i - 1, total);
    }
  }

  lemma {:induction false} PassWork(line: Hops, i: nat, total: nat)
    requires i + 1 < |line| && line[i] != []
    ensures LineWork(Pass(line, i), total) == LineWork(line, total) - 1
  {
    var m := line[i][0];
    if i == 0 {
      assert Pass(line, 0)[1..] == Send(line[1..], m);
      SendWork(line[1..], m, total);
    } else {
      assert Pass(line, i)[1..] == Pass(line[1..], i - 1);
      PassWork(line[1..], i - 1, total);
    }
  }

  // ---- Ends ----

  lemma Fewer<T>(a: set<T>, x: T, w: nat)
    requires x in a
    ensures Cost(|a|, w) == Cost(|a - {x}|, w) + w
  {
    assert |a - {x}| == |a| - 1;
  }

  lemma More<T>(a: set<T>, x: T, w: nat)
    ensures Cost(|a + {x}|, w) <= Cost(|a|, w) + w
  {
    if x in a {
      assert a + {x} == a;
    } else {
      assert |a + {x}| == |a| + 1;
    }
  }

  lemma DetachWork(e: End, c: ConnID, total: nat)
    ensures EndWork(Detach(e, c), total) <= EndWork(e, total)
  {
    if c in e.conns {
      assert Detach(e, c).conns.Keys == e.conns.Keys - {c};
      Fewer(e.conns.Keys, c, total + 2);
      More(e.owed, c, total + 1);
    }
  }

  lemma DeliverWork(e: End, c: ConnID, data: Bytes, ok: bool, total: nat)
    ensures EndWork(Deliver(e, c, data, ok), total) <= EndWork(e, total)
  {
    DetachWork(e, c, total);
  }

  lemma JoinWork(e: End, c: ConnID, total: nat)
    ensures EndWork(Join(e, c), total) <= EndWork(e, total) + total + 2
  {
    assert Join(e, c).conns.Keys == e.conns.Keys + {c};
    More(e.conns.Keys, c, total + 2);
  }

  lemma ReleaseWork(e: End, c: ConnID, total: nat)
    requires c in e.holding
    ensures EndWork(Release(e, c), total) == EndWork(e, total) - (total + 1)
  {
    assert Release(e, c).holding.Keys == e.holding.Keys - {c};
    Fewer(e.holding.Keys, c, total + 1);
  }

  lemma PayWork(e: End, c: ConnID, total: nat)
    requires c in e.owed
    ensures EndWork(Pay(e, c), total) == EndWork(e, total) - (total + 1)
  {
    Fewer(e.owed, c, total + 1);
  }

  lemma DialWork(e: End, c: ConnID, total: nat)
    requires c in e.dialing
    ensures EndWork(e.(dialing := e.dialing - {c}, reading := e.reading + {c}), total) == EndWork(e, total) - (2 * total + 3)
  {
    Fewer(e.dialing, c, 2 * total + 3);
  }

  // ---- Steps ----

  lemma RelayWork(h: Half, i: nat, marks: set<ConnID>, total: nat)
    requires i + 1 < |h.line| && i + 1 < |h.carried| && h.line[i] != []
    ensures LineWork(RelayLine(h, i, marks).line, total) < LineWork(h.line, total)
  {
    PassWork(h.line, i, total);
    PopWork(h.line, i, total);
  }

  lemma RelayWorkStep(s: Chain, step: Step)
    requires WellFormed(s) && Enabled(s, step) && (step.RelayDown? || step.RelayUp?)
    ensures Work(Next(s, step)) < Work(s)
  {
    var r := step.relay;
    if step.RelayDown? {
      RelayWork(s.entry, r, s.marks[r], |s.marks| + 1);
    } else {
      RelayWork(s.exit, UpHop(s, r), s.marks[r], |s.marks| + 1);
    }
  }

  lemma SendConnectWork(s: Chain, c: ConnID)
    requires WellFormed(s) && Enabled(s, SendConnect(c))
    ensures Work(Next(s, SendConnect(c))) < Work(s)
  {
    var total := |s.marks| + 1;
    SendWork(s.entry.line, Connect(c), total);
    DialWork(s.entry.end, c, total);
  }

  lemma PostDataWork(h: Half, c: ConnID, total: nat)
    requires |h.line| == total > 0 && h.carried != [] && c in h.end.holding
    ensures HalfWork(Post(h, Data(c, h.end.holding[c])).(end := Release(h.end, c)), total) < HalfWork(h, total)
  {
    SendWork(h.line, Data(c, h.end.holding[c]), total);
    ReleaseWork(h.end, c, total);
  }

  lemma PostCloseWork(h: Half, c: ConnID, total: nat)
    requires |h.line| == total > 0 && h.carried != [] && c in h.end.owed
    ensures HalfWork(Post(h, Close(c)).(end := Pay(h.end, c)), total) < HalfWork(h, total)
  {
    SendWork(h.line, Close(c), total);
    PayWork(h.end, c, total);
  }

  lemma SendWorkStep(s: Chain, step: Step)
    requires WellFormed(s) && Enabled(s, step) && (step.SendData? || step.SendClose?)
    ensures Work(Next(s, step)) < Work(s)
  {
    if step.SendData? {
      PostDataWork(HalfOf(s, step.side), step.c, |s.marks| + 1);
    } else {
      PostCloseWork(HalfOf(s, step.side), step.c, |s.marks| + 1);
    }
  }

  lemma ArriveWork(h: Half, total: nat)
    requires |h.line| == total > 0 && |h.carried| == total + 1 && h.line[total - 1] != []
    ensures HalfWork(Arrive(h), total) + MessageWork(h.line[total - 1][0], 1, total) == HalfWork(h, total)
  {
    PopWork(h.line, total - 1, total);
  }

  lemma RefuseWork(h: Half, c: ConnID, total: nat)
    requires |h.line| == total > 0 && h.carried != []
    ensures HalfWork(Post(h, Close(c)).(end := h.end.(closed := h.end.closed + {c})), total) == HalfWork(h, total) + total
  {
    SendWork(h.line, Close(c), total);
  }

  lemma ConnectWork(s: Chain, ok: bool)
    requires WellFormed(s) && Enabled(s, RecvExit(ok)) && s.entry.line[|s.marks|][0].Connect?
    ensures Work(Next(s, RecvExit(ok))) < Work(s)
  {
    var total, c := |s.marks| + 1, s.entry.line[|s.marks|][0].id;
    ArriveWork(s.entry, total);
    if ok {
      JoinWork(s.exit.end, c, total);
    } else {
      RefuseWork(s.exit, c, total);
    }
  }

  lemma DataOrCloseWork(s: Chain, ok: bool)
    requires WellFormed(s) && Enabled(s, RecvExit(ok)) && !s.entry.line[|s.marks|][0].Connect?
    ensures Work(Next(s, RecvExit(ok))) < Work(s)
  {
    var total, m := |s.marks| + 1, s.entry.line[|s.marks|][0];
    ArriveWork(s.entry, total);
    if m.Data? {
      DeliverWork(s.exit.end, m.id, m.payload, ok, total);
    } else {
      DetachWork(s.exit.end, m.id, total);
    }
  }

  lemma RecvEntryWork(s: Chain, ok: bool)
    requires WellFormed(s) && Enabled(s, RecvEntry(ok))
    ensures Work(Next(s, RecvEntry(ok))) < Work(s)
  {
    var total, m := |s.marks| + 1, s.exit.line[|s.marks|][0];
    ArriveWork(s.exit, total);
    if m.Data? {
      DeliverWork(s.entry.end, m.id, m.payload, ok, total);
    } else if m.Close? {
      DetachWork(s.entry.end, m.id, total);
    }
  }

  lemma StepWork(s: Chain, step: Step)
    requires WellFormed(s) && Enabled(s, step) && Internal(step)
    ensures Work(Next(s, step)) < Work(s)
  {
    match step
    case RelayDown(r) => RelayWorkStep(s, step);
    case RelayUp(r) => RelayWorkStep(s, step);
    case RecvExit(ok) => if s.entry.line[|s.marks|][0].Connect? { ConnectWork(s, ok); } else { DataOrCloseWork(s, ok); }
    case RecvEntry(ok) => RecvEntryWork(s, ok);
    case SendConnect(c) => SendConnectWork(s, c);
    case SendData(side, c) => SendWorkStep(s, step);
    case SendClose(side, c) => SendWorkStep(s, step);
    case _ =>
  }

  /** However the scheduler interleaves them, internal steps run out: at most Work(s) of them follow s. */
  lemma {:induction false} TrafficDiesOut(s: Chain, run: seq<Step>)
    requires WellFormed(s) && Valid(s, run) && AllInternal(run)
    ensures |run| + Work(After(s, run)) <= Work(s)
    decreases |run|
  {
    if run != [] {
      StepWork(s, run[0]);
      TrafficDiesOut(Next(s, run[0]), run[1..]);
    }
  }

  /** Until all is quiet there is always an internal step to take. */
  lemma SomeStep(s: Chain) returns (step: Step)
    requires WellFormed(s) && s.exit.end.dialing == {} && !Quiet(s)
    ensures Enabled(s, step) && Internal(step)
  {
    var e, x := s.entry.end, s.exit.end;
    if i :| 0 <= i < |s.entry.line| && s.entry.line[i] != [] {
      step := if i == |s.marks| then RecvExit(false) else RelayDown(i);
    } else if i :| 0 <= i < |s.exit.line| && s.exit.line[i] != [] {
      step := if i == |s.marks| then RecvEntry(false) else RelayUp(|s.marks| - 1 - i);
    } else if c :| c in e.dialing {
      step := SendConnect(c);
    } else if c :| c in e.owed {
      step := SendClose(Entry, c);
    } else if c :| c in x.owed {
      step := SendClose(Exit, c);
    } else if c :| c in e.holding {
      step := SendData(Entry, c);
    } else if c :| c in x.holding {
      step := SendData(Exit, c);
    } else {
      assert false;
    }
  }

  lemma {:induction false} AfterConcat(s: Chain, run: seq<Step>, more: seq<Step>)
    requires WellFormed(s) && Valid(s, run) && Valid(After(s, run), more)
    ensures Valid(s, run + more) && After(s, run + more) == After(After(s, run), more)
    decreases |run|
  {
    if run == [] {
      assert run + more == more;
    } else {
      assert (run + more)[1..] == run[1..] + more;
      AfterConcat(Next(s, run[0]), run[1..], more);
    }
  }

  /** Taking internal steps, in whatever order, brings the chain to rest. */
  lemma {:induction false} Settle(s: Chain) returns (more: seq<Step>)
    requires Inv(s)
    ensures AllInternal(more) && Valid(s, more) && Inv(After(s, more)) && Quiet(After(s, more))
    decreases Work(s)
  {
    if Quiet(s) {
      more := [];
    } else {
      assert s.exit.end.dialing == {} by {
        forall c: ConnID ensures c !in s.exit.end.dialing { assert ChainLife.Life(s, c); }
      }
      var step := SomeStep(s);
      StepWork(s, step);
      StepInv(s, step);
      var rest := Settle(Next(s, step));
      more := [step] + rest;
      assert more[1..] == rest;
    }
  }

  /**
   * Convergence: whatever happened so far, if the sockets then stay still the
   * agents bring the chain to rest; at rest both ends have registered the same
   * connections, none that somebody has left is among them, and each of them is
   * being read at both ends.
   */
  lemma Converges(relays: nat, run: seq<Step>) returns (more: seq<Step>)
    requires Valid(Init(relays), run)
    ensures AllInternal(more) && Valid(Init(relays), run + more)
    ensures var s := After(Init(relays), run + more);
      && Quiet(s) && s.entry.end.conns.Keys == s.exit.end.conns.Keys
      && (forall side, c :: ReaderEnd(side, c) in run ==> c !in s.entry.end.conns && c !in s.exit.end.conns)
      && s.entry.end.conns.Keys <= s.entry.end.reading && s.exit.end.conns.Keys <= s.exit.end.reading
  {
    InitInv(relays);
    RunInv(Init(relays), run);
    var s := After(Init(relays), run);
    more := Settle(s);
    AfterConcat(Init(relays), run, more);
    QuietAgreement(After(s, more));
    forall side, c | ReaderEnd(side, c) in run
      ensures c !in After(s, more).entry.end.conns && c !in After(s, more).exit.end.conns
    {
      ChainLeaving.EndedIsGone(relays, run + more, side, c);
    }
    forall c: ConnID
      ensures c in After(s, more).entry.end.conns ==> c in After(s, more).entry.end.reading
      ensures c in After(s, more).exit.end.conns ==> c in After(s, more).exit.end.reading
    {
      ChainLeaving.EveryConnectionIsRead(relays, run + more, c);
    }
  }
}
