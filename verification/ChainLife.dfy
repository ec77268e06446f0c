/**
 * The life of one connection id: where it may be registered, what may be on its
 * way, and why the exit handles its Connect before anything else of it.
 */
module ChainLife {
  import opened Messages
  import opened Line
  import opened Chain

  predicate Started(s: Chain, c: ConnID) {
    1 <= c <= s.nextID
  }

  /** At this end, c is registered, or about to be closed, or closed: exactly one of the three. */
  predicate OnePhase(e: End, c: ConnID) {
    && (c in e.conns || c in e.owed || c in e.closed)
    && !(c in e.conns && c in e.owed)
    && !(c in e.conns && c in e.closed)
    && !(c in e.owed && c in e.closed)
  }

  predicate Untouched(e: End, c: ConnID) {
    && c !in e.conns && c !in e.owed && c !in e.closed
    && c !in e.reading && c !in e.holding
    && Get(e.taken, c) == [] && Get(e.queued, c) == []
  }

  predicate NoConnect(ms: seq<Message>) {
    forall m :: m in ms ==> !m.Connect?
  }

  /** The Connect of c is the oldest message of c on the line, and the only one. */
  predicate ConnectFirst(ms: seq<Message>, c: ConnID) {
    ms != [] && ms[0] == Connect(c) && NoConnect(ms[1..])
  }

  predicate EntryLife(s: Chain, c: ConnID) {
    var e := s.entry.end;
    && (c in e.dialing ==> c in e.conns && c !in e.reading && c !in e.holding && Get(e.taken, c) == [])
    && (c in e.reading ==> c !in e.holding)
    && (Started(s, c) ==> OnePhase(e, c))
    && (!Started(s, c) ==> Untouched(e, c) && c !in e.dialing)
  }

  predicate ExitLife(s: Chain, c: ConnID) {
    var x := s.exit.end;
    && c !in x.dialing
    && (c in x.reading ==> c !in x.holding)
    && (c in s.connected ==> OnePhase(x, c) && Started(s, c) && c !in s.entry.end.dialing)
    && (c !in s.connected ==> Untouched(x, c))
  }

  predicate LineLife(s: Chain, c: ConnID) {
    var down := Flow(s.entry.line, c);
    && (!Started(s, c) || c in s.entry.end.dialing ==> down == [])
    && (Started(s, c) && c !in s.entry.end.dialing && c !in s.connected ==> ConnectFirst(down, c))
    && (c in s.connected ==> NoConnect(down))
    && (c !in s.connected ==> Flow(s.exit.line, c) == [])
  }

  predicate Life(s: Chain, c: ConnID) {
    EntryLife(s, c) && ExitLife(s, c) && LineLife(s, c)
  }

  /** Taking a message that is not the Connect out of the line leaves the Connect first. */
  lemma ConnectStaysFirst(before: seq<Message>, m: Message, after: seq<Message>, c: ConnID)
    requires !m.Connect?
    requires ConnectFirst(before + [m] + after, c)
    ensures ConnectFirst(before + after, c)
  {
    var whole := before + [m] + after;
    assert whole[0] == if before == [] then m else before[0];
    assert whole[1..] == before[1..] + [m] + after;
    NoConnectConcat(before[1..] + [m], after);
    NoConnectConcat(before[1..], [m]);
    assert (before + after)[1..] == before[1..] + after;
    NoConnectConcat(before[1..], after);
  }

  lemma NoConnectConcat(a: seq<Message>, b: seq<Message>)
    ensures NoConnect(a + b) <==> NoConnect(a) && NoConnect(b)
  {
    assert forall m :: m in a + b <==> m in a || m in b;
  }

  lemma ConnectFirstSend(ms: seq<Message>, m: seq<Message>, c: ConnID)
    requires ConnectFirst(ms, c) && NoConnect(m)
    ensures ConnectFirst(ms + m, c)
  {
    assert (ms + m)[1..] == ms[1..] + m;
    NoConnectConcat(ms[1..], m);
  }

  lemma LifeRelayDown(s: Chain, r: nat, c: ConnID)
    requires WellFormed(s) && Enabled(s, RelayDown(r)) && Life(s, c)
    ensures Life(Next(s, RelayDown(r)), c)
  {
    var m := s.entry.line[r][0];
    if m.Close? && m.id in s.marks[r] {
      var before, after := PopFlow(s.entry.line, r, c);
      if m.id == c {
        NoConnectConcat(before + [m], after);
        NoConnectConcat(before, [m]);
        NoConnectConcat(before, after);
        if ConnectFirst(Flow(s.entry.line, c), c) {
          ConnectStaysFirst(before, m, after, c);
        }
      }
    } else {
      PassFlow(s.entry.line, r, c);
    }
  }

  lemma LifeRelayUp(s: Chain, r: nat, c: ConnID)
    requires WellFormed(s) && Enabled(s, RelayUp(r)) && Life(s, c)
    ensures Life(Next(s, RelayUp(r)), c)
  {
    var i := UpHop(s, r);
    var m := s.exit.line[i][0];
    if m.Close? && m.id in s.marks[r] {
      var before, after := PopFlow(s.exit.line, i, c);
    } else {
      PassFlow(s.exit.line, i, c);
    }
  }

  /** The exit's next message of c is the Connect exactly while c is not connected. */
  lemma OldestAtExit(s: Chain, c: ConnID)
    requires WellFormed(s) && s.entry.line[|s.marks|] != [] && Life(s, c)
    ensures var m := s.entry.line[|s.marks|][0];
      var rest := Flow(Arrive(s.entry).line, c);
      && (m.id != c ==> rest == Flow(s.entry.line, c))
      && (m.id == c ==> Started(s, c) && c !in s.entry.end.dialing && (m.Connect? <==> c !in s.connected) && NoConnect(rest))
  {
    var m := s.entry.line[|s.marks|][0];
    OldestFlow(s.entry.line, c);
    if m.id == c {
      var down, rest := Flow(s.entry.line, c), Flow(Arrive(s.entry).line, c);
      assert down[0] == m && down[1..] == rest;
      NoConnectConcat([m], rest);
      assert m in [m];
    }
  }

  /** Only an id the exit has connected can arrive at the entry. */
  lemma OldestAtEntry(s: Chain, c: ConnID)
    requires WellFormed(s) && s.exit.line[|s.marks|] != [] && Life(s, c)
    ensures var m := s.exit.line[|s.marks|][0];
      var rest := Flow(Arrive(s.exit).line, c);
      && (m.id != c ==> rest == Flow(s.exit.line, c))
      && (m.id == c ==> c in s.connected && Started(s, c))
  {
    OldestFlow(s.exit.line, c);
  }

  lemma LifeConnect(s: Chain, ok: bool, c: ConnID)
    requires WellFormed(s) && Enabled(s, RecvExit(ok)) && Life(s, c)
    requires s.entry.line[|s.marks|][0].Connect?
    ensures Life(Next(s, RecvExit(ok)), c)
  {
    var m := s.entry.line[|s.marks|][0];
    OldestAtExit(s, c);
    if !ok {
      SendFlow(s.exit.line, Close(m.id), c);
    }
  }

  lemma LifeDataOrClose(s: Chain, ok: bool, c: ConnID)
    requires WellFormed(s) && Enabled(s, RecvExit(ok)) && Life(s, c)
    requires !s.entry.line[|s.marks|][0].Connect?
    ensures Life(Next(s, RecvExit(ok)), c)
  {
    OldestAtExit(s, c);
  }

  lemma LifeRecvEntry(s: Chain, ok: bool, c: ConnID)
    requires WellFormed(s) && Enabled(s, RecvEntry(ok)) && Life(s, c)
    ensures Life(Next(s, RecvEntry(ok)), c)
  {
    OldestAtEntry(s, c);
  }

  lemma LifeSendConnect(s: Chain, d: ConnID, c: ConnID)
    requires WellFormed(s) && Enabled(s, SendConnect(d)) && Life(s, c)
    ensures Life(Next(s, SendConnect(d)), c)
  {
    SendFlow(s.entry.line, Connect(d), c);
    if d == c {
      assert Flow(s.entry.line, c) + [Connect(c)] == [Connect(c)];
    }
  }

  /** The line of the entry stays in order when a message of a started, dialled id is added. */
  lemma LinePost(s: Chain, m: Message, c: ConnID)
    requires WellFormed(s) && Life(s, c) && !m.Connect?
    requires m.id == c ==> Started(s, c) && c !in s.entry.end.dialing
    ensures LineLife(s.(entry := Post(s.entry, m)), c)
  {
    var down := Flow(s.entry.line, c);
    SendFlow(s.entry.line, m, c);
    if m.id == c {
      if ConnectFirst(down, c) { ConnectFirstSend(down, [m], c); }
      NoConnectConcat(down, [m]);
    }
  }

  lemma LifeSendData(s: Chain, side: Side, d: ConnID, c: ConnID)
    requires WellFormed(s) && Enabled(s, SendData(side, d)) && Life(s, c)
    ensures Life(Next(s, SendData(side, d)), c)
  {
    var m := Data(d, HalfOf(s, side).end.holding[d]);
    var s' := Next(s, SendData(side, d));
    if side.Entry? {
      LinePost(s, m, c);
      assert Flow(s'.entry.line, c) == Flow(s.(entry := Post(s.entry, m)).entry.line, c);
    } else {
      SendFlow(s.exit.line, m, c);
    }
  }

  lemma LifeSendClose(s: Chain, side: Side, d: ConnID, c: ConnID)
    requires WellFormed(s) && Enabled(s, SendClose(side, d)) && Life(s, c)
    ensures Life(Next(s, SendClose(side, d)), c)
  {
    var m := Close(d);
    var s' := Next(s, SendClose(side, d));
    if side.Entry? {
      LinePost(s, m, c);
      assert Flow(s'.entry.line, c) == Flow(s.(entry := Post(s.entry, m)).entry.line, c);
    } else {
      SendFlow(s.exit.line, m, c);
    }
  }

  lemma LifeLocal(s: Chain, step: Step, c: ConnID)
    requires WellFormed(s) && Enabled(s, step) && Life(s, c)
    requires step.Read? || step.ReaderEnd? || step.WriterFails? || step.Expire?
    ensures Life(Next(s, step), c)
  {
  }

  lemma LifeAccept(s: Chain, c: ConnID)
    requires WellFormed(s) && Enabled(s, Accept) && Life(s, c)
    ensures Life(Next(s, Accept), c)
  {
  }

  lemma LifeStep(s: Chain, step: Step, c: ConnID)
    requires WellFormed(s) && Enabled(s, step) && Life(s, c)
    ensures Life(Next(s, step), c)
  {
    match step
    case Accept => LifeAccept(s, c);
    case SendConnect(d) => LifeSendConnect(s, d, c);
    case Read(side, d, data) => LifeLocal(s, step, c);
    case SendData(side, d) => LifeSendData(s, side, d, c);
    case ReaderEnd(side, d) => LifeLocal(s, step, c);
    case SendClose(side, d) => LifeSendClose(s, side, d, c);
    case WriterFails(side, d) => LifeLocal(s, step, c);
    case RelayDown(r) => LifeRelayDown(s, r, c);
    case RelayUp(r) => LifeRelayUp(s, r, c);
    case Expire(r, d) => LifeLocal(s, step, c);
    case RecvExit(ok) =>
      if s.entry.line[|s.marks|][0].Connect? {
        LifeConnect(s, ok, c);
      } else {
        LifeDataOrClose(s, ok, c);
      }
    case RecvEntry(ok) => LifeRecvEntry(s, ok, c);
  }
}
