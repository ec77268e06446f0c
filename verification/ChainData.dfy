/**
 * What each end hands to its local socket: for every connection an in-order
 * prefix of what the other end read from its own socket for that connection.
 */
module ChainData {
  import opened Messages
  import opened Line
  import opened Chain
  import opened ChainLife

  function Held(e: End, c: ConnID): Bytes {
    Get(e.holding, c)
  }

  /** Every byte read so far is delivered, on the line, or in the reader's hands, in that order. */
  predicate Flowing(sender: Half, receiver: End, c: ConnID) {
    Get(receiver.queued, c) + Payload(Flow(sender.line, c)) + Held(sender.end, c) == Get(sender.end.taken, c)
  }

  /** The receiver has stopped accepting bytes of c for good. */
  predicate Stopped(sender: Half, receiver: End, c: ConnID) {
    !(c in receiver.conns && !receiver.conns[c]) && Get(receiver.queued, c) <= Get(sender.end.taken, c)
  }

  predicate Down(s: Chain, c: ConnID) {
    Flowing(s.entry, s.exit.end, c) || (c in s.connected && Stopped(s.entry, s.exit.end, c))
  }

  predicate Up(s: Chain, c: ConnID) {
    Flowing(s.exit, s.entry.end, c) || (Started(s, c) && Stopped(s.exit, s.entry.end, c))
  }

  lemma PayloadOne(m: Message)
    ensures Payload([m]) == if m.Data? then m.payload else []
  {
    assert Payload([m]) == (if m.Data? then m.payload else []) + Payload([]);
  }

  /** The bytes that message m carries for c. */
  function Chunk(m: Message, c: ConnID): Bytes {
    if m.Data? && m.id == c then m.payload else []
  }

  /** Putting a message on the line adds its payload to what is on its way. */
  lemma PostPayload(line: Hops, m: Message, c: ConnID)
    requires line != []
    ensures Payload(Flow(Send(line, m), c)) == Payload(Flow(line, c)) + Chunk(m, c)
  {
    SendFlow(line, m, c);
    PayloadConcat(Flow(line, c), [m]);
    PayloadOne(m);
  }

  lemma PostControl(line: Hops, m: Message, c: ConnID)
    requires line != [] && !m.Data?
    ensures Payload(Flow(Send(line, m), c)) == Payload(Flow(line, c))
  {
    PostPayload(line, m, c);
    assert Payload(Flow(line, c)) + [] == Payload(Flow(line, c));
  }

  lemma PayloadWithout(before: seq<Message>, m: Message, after: seq<Message>)
    requires !m.Data?
    ensures Payload(before + [m] + after) == Payload(before + after)
  {
    PayloadOne(m);
    PayloadConcat(before + [m], after);
    PayloadConcat(before, [m]);
    PayloadConcat(before, after);
  }

  /** A relay changes nothing: it passes messages on, and swallows only messages without payload. */
  lemma RelayPayload(h: Half, i: nat, marks: set<ConnID>, c: ConnID)
    requires i + 1 < |h.line| && i + 1 < |h.carried| && h.line[i] != []
    ensures Payload(Flow(RelayLine(h, i, marks).line, c)) == Payload(Flow(h.line, c))
  {
    var m := h.line[i][0];
    if m.Close? && m.id in marks {
      var before, after := PopFlow(h.line, i, c);
      PayloadWithout(before, m, after);
    } else {
      PassFlow(h.line, i, c);
    }
  }

  /** The oldest message of a line leaves with its payload. */
  lemma ArrivePayload(h: Half, c: ConnID)
    requires h.line != [] && |h.carried| == |h.line| + 1 && h.line[|h.line| - 1] != []
    ensures Payload(Flow(h.line, c)) == Chunk(h.line[|h.line| - 1][0], c) + Payload(Flow(Arrive(h).line, c))
  {
    var m := h.line[|h.line| - 1][0];
    OldestFlow(h.line, c);
    PayloadOne(m);
    PayloadConcat([m], Flow(Arrive(h).line, c));
  }

  lemma TakeFlowing(h: Half, receiver: End, d: ConnID, data: Bytes, c: ConnID)
    requires d in h.end.reading && (c in h.end.reading ==> c !in h.end.holding)
    requires Flowing(h, receiver, c)
    ensures Flowing(h.(end := Take(h.end, d, data)), receiver, c)
  {
    if c == d {
      assert Held(h.end, c) == [];
      var sent := Get(receiver.queued, c) + Payload(Flow(h.line, c));
      assert sent + Held(h.end, c) == sent;
    }
  }

  lemma TakeGrows(e: End, d: ConnID, data: Bytes, c: ConnID)
    ensures Get(e.taken, c) <= Get(Take(e, d, data).taken, c)
  {
  }

  lemma ReleaseFlowing(h: Half, receiver: End, d: ConnID, c: ConnID)
    requires h.line != [] && h.carried != [] && d in h.end.holding
    requires Flowing(h, receiver, c)
    ensures Flowing(Post(h, Data(d, h.end.holding[d])).(end := Release(h.end, d)), receiver, c)
  {
    PostPayload(h.line, Data(d, h.end.holding[d]), c);
  }

  lemma DeliverFrame(e: End, d: ConnID, data: Bytes, ok: bool, c: ConnID)
    requires d != c
    ensures var r := Deliver(e, d, data, ok);
      Get(r.queued, c) == Get(e.queued, c) && (c in r.conns <==> c in e.conns) && (c in e.conns ==> r.conns[c] == e.conns[c])
  {
  }

  /** Bytes of c are accepted whole, or not at all; once refused, none are ever accepted again. */
  lemma DeliverOwn(e: End, c: ConnID, data: Bytes, ok: bool)
    ensures var r := Deliver(e, c, data, ok);
      if ok && c in e.conns && !e.conns[c] then Get(r.queued, c) == Get(e.queued, c) + data
      else Get(r.queued, c) == Get(e.queued, c) && !(c in r.conns && !r.conns[c])
  {
  }

  lemma Regroup(q: Bytes, chunk: Bytes, rest: Bytes, held: Bytes)
    ensures q + (chunk + rest) + held == (q + chunk) + rest + held
    ensures q <= q + (chunk + rest) + held
  {
    assert q + (chunk + rest) + held == q + (chunk + rest + held);
  }

  /** The heart of in-order delivery: an arriving chunk of c extends the prefix or ends it. */
  lemma DeliverData(h: Half, receiver: End, ok: bool, c: ConnID)
    requires h.line != [] && |h.carried| == |h.line| + 1 && h.line[|h.line| - 1] != []
    requires h.line[|h.line| - 1][0].Data?
    requires Flowing(h, receiver, c)
    ensures var m := h.line[|h.line| - 1][0];
      var r := Deliver(receiver, m.id, m.payload, ok);
      Flowing(Arrive(h), r, c) || (m.id == c && Stopped(Arrive(h), r, c))
  {
    ArrivePayload(h, c);
    var m := h.line[|h.line| - 1][0];
    var h' := Arrive(h);
    var r := Deliver(receiver, m.id, m.payload, ok);
    var rest, q := Payload(Flow(h'.line, c)), Get(receiver.queued, c);
    var chunk := Chunk(m, c);
    Regroup(q, chunk, rest, Held(h.end, c));
    assert Get(h'.end.taken, c) == q + (chunk + rest) + Held(h'.end, c);
    if m.id == c {
      DeliverOwn(receiver, c, m.payload, ok);
    } else {
      DeliverFrame(receiver, m.id, m.payload, ok, c);
      assert q + [] == q;
    }
  }

  /** Once stopped, whatever arrives is dropped. */
  lemma DeliverStopped(h: Half, receiver: End, d: ConnID, data: Bytes, ok: bool, c: ConnID)
    requires h.line != [] && |h.carried| == |h.line| + 1 && h.line[|h.line| - 1] != []
    requires Stopped(h, receiver, c)
    ensures Stopped(Arrive(h), Deliver(receiver, d, data, ok), c)
  {
  }

  lemma ArriveControl(h: Half, receiver: End, c: ConnID)
    requires h.line != [] && |h.carried| == |h.line| + 1 && h.line[|h.line| - 1] != []
    requires !h.line[|h.line| - 1][0].Data?
    ensures Flowing(h, receiver, c) ==> Flowing(Arrive(h), receiver, c)
    ensures Stopped(h, receiver, c) ==> Stopped(Arrive(h), receiver, c)
  {
    ArrivePayload(h, c);
    assert Payload(Flow(h.line, c)) == [] + Payload(Flow(Arrive(h).line, c));
  }

  lemma FlowingIsPrefix(h: Half, receiver: End, c: ConnID)
    requires Flowing(h, receiver, c)
    ensures Get(receiver.queued, c) <= Get(h.end.taken, c)
  {
    Regroup(Get(receiver.queued, c), Payload(Flow(h.line, c)), [], Held(h.end, c));
    assert Payload(Flow(h.line, c)) + [] == Payload(Flow(h.line, c));
  }

  // ---- Steps ----

  lemma DataRead(s: Chain, side: Side, d: ConnID, data: Bytes, c: ConnID)
    requires WellFormed(s) && Enabled(s, Read(side, d, data)) && Life(s, c) && Down(s, c) && Up(s, c)
    ensures var s' := Next(s, Read(side, d, data)); Down(s', c) && Up(s', c)
  {
    if side.Entry? {
      if Flowing(s.entry, s.exit.end, c) { TakeFlowing(s.entry, s.exit.end, d, data, c); }
      TakeGrows(s.entry.end, d, data, c);
    } else {
      if Flowing(s.exit, s.entry.end, c) { TakeFlowing(s.exit, s.entry.end, d, data, c); }
      TakeGrows(s.exit.end, d, data, c);
    }
  }

  lemma DataSendData(s: Chain, side: Side, d: ConnID, c: ConnID)
    requires WellFormed(s) && Enabled(s, SendData(side, d)) && Down(s, c) && Up(s, c)
    ensures var s' := Next(s, SendData(side, d)); Down(s', c) && Up(s', c)
  {
    if side.Entry? {
      if Flowing(s.entry, s.exit.end, c) { ReleaseFlowing(s.entry, s.exit.end, d, c); }
    } else {
      if Flowing(s.exit, s.entry.end, c) { ReleaseFlowing(s.exit, s.entry.end, d, c); }
    }
  }

  lemma DataSendConnect(s: Chain, d: ConnID, c: ConnID)
    requires WellFormed(s) && Enabled(s, SendConnect(d)) && Down(s, c) && Up(s, c)
    ensures var s' := Next(s, SendConnect(d)); Down(s', c) && Up(s', c)
  {
    PostControl(s.entry.line, Connect(d), c);
  }

  lemma DataSendClose(s: Chain, side: Side, d: ConnID, c: ConnID)
    requires WellFormed(s) && Enabled(s, SendClose(side, d)) && Down(s, c) && Up(s, c)
    ensures var s' := Next(s, SendClose(side, d)); Down(s', c) && Up(s', c)
  {
    PostControl(HalfOf(s, side).line, Close(d), c);
  }

  lemma DataRelay(s: Chain, step: Step, c: ConnID)
    requires WellFormed(s) && Enabled(s, step) && Down(s, c) && Up(s, c)
    requires step.RelayDown? || step.RelayUp?
    ensures var s' := Next(s, step); Down(s', c) && Up(s', c)
  {
    match step
    case RelayDown(r) => RelayPayload(s.entry, r, s.marks[r], c);
    case RelayUp(r) => RelayPayload(s.exit, UpHop(s, r), s.marks[r], c);
  }

  lemma DataRecvExitData(s: Chain, ok: bool, c: ConnID)
    requires WellFormed(s) && Enabled(s, RecvExit(ok)) && Life(s, c) && Down(s, c)
    requires s.entry.line[|s.marks|][0].Data?
    ensures Down(Next(s, RecvExit(ok)), c)
  {
    var m := s.entry.line[|s.marks|][0];
    OldestAtExit(s, c);
    if Flowing(s.entry, s.exit.end, c) {
      DeliverData(s.entry, s.exit.end, ok, c);
    } else {
      DeliverStopped(s.entry, s.exit.end, m.id, m.payload, ok, c);
    }
  }

  lemma DataRecvExitControl(s: Chain, ok: bool, c: ConnID)
    requires WellFormed(s) && Enabled(s, RecvExit(ok)) && Life(s, c) && Down(s, c)
    requires !s.entry.line[|s.marks|][0].Data?
    ensures Down(Next(s, RecvExit(ok)), c)
  {
    var m := s.entry.line[|s.marks|][0];
    var s' := Next(s, RecvExit(ok));
    OldestAtExit(s, c);
    ArriveControl(s.entry, s.exit.end, c);
    assert s'.entry == Arrive(s.entry) && s'.exit.end.queued == s.exit.end.queued;
    if !Flowing(s.entry, s.exit.end, c) {
      assert m.Connect? ==> m.id != c;
    }
  }

  lemma DataRecvExit(s: Chain, ok: bool, c: ConnID)
    requires WellFormed(s) && Enabled(s, RecvExit(ok)) && Life(s, c) && Down(s, c)
    ensures Down(Next(s, RecvExit(ok)), c)
  {
    if s.entry.line[|s.marks|][0].Data? {
      DataRecvExitData(s, ok, c);
    } else {
      DataRecvExitControl(s, ok, c);
    }
  }

  lemma UpRecvExit(s: Chain, ok: bool, c: ConnID)
    requires WellFormed(s) && Enabled(s, RecvExit(ok)) && Life(s, c) && Up(s, c)
    ensures Up(Next(s, RecvExit(ok)), c)
  {
    var m := s.entry.line[|s.marks|][0];
    if m.Connect? && !ok {
      PostControl(s.exit.line, Close(m.id), c);
    }
  }

  lemma DataRecvEntry(s: Chain, ok: bool, c: ConnID)
    requires WellFormed(s) && Enabled(s, RecvEntry(ok)) && Life(s, c) && Up(s, c)
    ensures Up(Next(s, RecvEntry(ok)), c)
  {
    var m := s.exit.line[|s.marks|][0];
    OldestAtEntry(s, c);
    if m.Data? {
      if Flowing(s.exit, s.entry.end, c) {
        DeliverData(s.exit, s.entry.end, ok, c);
      } else {
        DeliverStopped(s.exit, s.entry.end, m.id, m.payload, ok, c);
      }
    } else {
      ArriveControl(s.exit, s.entry.end, c);
    }
  }

  lemma DataAccept(s: Chain, c: ConnID)
    requires WellFormed(s) && Enabled(s, Accept) && Life(s, c) && Down(s, c) && Up(s, c)
    ensures var s' := Next(s, Accept); Down(s', c) && Up(s', c)
  {
  }

  lemma DataLocal(s: Chain, step: Step, c: ConnID)
    requires WellFormed(s) && Enabled(s, step) && Down(s, c) && Up(s, c)
    requires step.ReaderEnd? || step.WriterFails? || step.Expire?
    ensures var s' := Next(s, step); Down(s', c) && Up(s', c)
  {
  }

  lemma RecvEntryShape(s: Chain, ok: bool)
    requires WellFormed(s) && Enabled(s, RecvEntry(ok))
    ensures var s' := Next(s, RecvEntry(ok));
      && s'.entry.line == s.entry.line && s'.exit.end == s.exit.end && s'.connected == s.connected
      && s'.entry.end.taken == s.entry.end.taken && s'.entry.end.holding == s.entry.end.holding
  {
  }

  lemma DownRecvEntry(s: Chain, s': Chain, c: ConnID)
    requires s'.entry.line == s.entry.line && s'.exit.end == s.exit.end && s'.connected == s.connected
    requires s'.entry.end.taken == s.entry.end.taken && s'.entry.end.holding == s.entry.end.holding
    requires Down(s, c)
    ensures Down(s', c)
  {
  }

  lemma DataStep(s: Chain, step: Step, c: ConnID)
    requires WellFormed(s) && Enabled(s, step) && Life(s, c) && Down(s, c) && Up(s, c)
    ensures var s' := Next(s, step); Down(s', c) && Up(s', c)
  {
    match step
    case Accept => DataAccept(s, c);
    case SendConnect(d) => DataSendConnect(s, d, c);
    case Read(side, d, data) => DataRead(s, side, d, data, c);
    case SendData(side, d) => DataSendData(s, side, d, c);
    case ReaderEnd(side, d) => DataLocal(s, step, c);
    case SendClose(side, d) => DataSendClose(s, side, d, c);
    case WriterFails(side, d) => DataLocal(s, step, c);
    case RelayDown(r) => DataRelay(s, step, c);
    case RelayUp(r) => DataRelay(s, step, c);
    case Expire(r, d) => DataLocal(s, step, c);
    case RecvExit(ok) =>
      DataRecvExit(s, ok, c);
      UpRecvExit(s, ok, c);
    case RecvEntry(ok) =>
      DataRecvEntry(s, ok, c);
      RecvEntryShape(s, ok);
      DownRecvEntry(s, Next(s, step), c);
  }
}
