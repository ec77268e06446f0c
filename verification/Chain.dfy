/**
 * The tunnel protocol as a step system: an entry end, any number of relays and
 * an exit end joined by reliable FIFO queues. One step is one critical section
 * or one SendMessage of one goroutine; any interleaving of steps is a run.
 */
module Chain {
  import opened Messages
  import opened Line

  /**
   * The TCP side of EntryForwarder or ExitForwarder. The goroutines between two
   * critical sections show up in dialing, reading, holding and owed; the last
   * three fields are history.
   */
  datatype End = End(
    conns: map<ConnID, bool>,     // registered connections; true once the write queue has closed itself
    dialing: set<ConnID>,         // entry only: registered, Connect not sent yet
    reading: set<ConnID>,         // reader goroutine waiting for its socket
    holding: map<ConnID, Bytes>,  // reader goroutine between Read and SendMessage
    owed: set<ConnID>,            // deleted from conns, Close not sent yet
    closed: set<ConnID>,          // Close sent
    taken: map<ConnID, Bytes>,    // everything read from the local socket
    queued: map<ConnID, Bytes>)   // everything accepted by the connection's write queue

  /** An end, the line it sends on, and how often each Close was put on each hop of that line. */
  datatype Half = Half(end: End, line: Hops, carried: seq<multiset<ConnID>>)

  datatype Chain = Chain(
    entry: Half,
    exit: Half,
    nextID: nat,
    connected: set<ConnID>,       // ids whose Connect the exit has handled
    marks: seq<set<ConnID>>)      // the closed map of each relay, entry side first

  datatype Side = Entry | Exit

  datatype Step =
    | Accept
    | SendConnect(c: ConnID)
    | Read(side: Side, c: ConnID, data: Bytes)
    | SendData(side: Side, c: ConnID)
    | ReaderEnd(side: Side, c: ConnID)
    | SendClose(side: Side, c: ConnID)
    | WriterFails(side: Side, c: ConnID)
    | RelayDown(relay: nat)
    | RelayUp(relay: nat)
    | Expire(relay: nat, c: ConnID)
    | RecvExit(ok: bool)          // ok: the dial, or the enqueueing of the data, succeeds
    | RecvEntry(ok: bool)

  function Get(m: map<ConnID, Bytes>, c: ConnID): Bytes {
    if c in m then m[c] else []
  }

  // ---- What a critical section does to an end ----

  /** closeTCPConn up to the unlock: a registered id is deleted and a Close is owed for it. */
  function Detach(e: End, c: ConnID): End {
    if c in e.conns then e.(conns := e.conns - {c}, owed := e.owed + {c}) else e
  }

  /** HandleData: bytes reach the write queue of c, or nobody; a failed enqueue closes c. */
  function Deliver(e: End, c: ConnID, data: Bytes, ok: bool): End {
    if c !in e.conns || e.conns[c] then e
    else if ok then e.(queued := e.queued[c := Get(e.queued, c) + data])
    else Detach(e, c)
  }

  function Take(e: End, c: ConnID, data: Bytes): End {
    e.(reading := e.reading - {c}, holding := e.holding[c := data], taken := e.taken[c := Get(e.taken, c) + data])
  }

  function Release(e: End, c: ConnID): End {
    e.(holding := e.holding - {c}, reading := e.reading + {c})
  }

  function Pay(e: End, c: ConnID): End {
    e.(owed := e.owed - {c}, closed := e.closed + {c})
  }

  /** The first half of handleTCPConn: a fresh id is registered, its Connect is still to be sent. */
  function Register(e: End, c: ConnID): End {
    e.(conns := e.conns[c := false], dialing := e.dialing + {c})
  }

  /** HandleConnect at the exit after a successful dial. */
  function Join(e: End, c: ConnID): End {
    e.(conns := e.conns[c := false], reading := e.reading + {c})
  }

  // ---- What a message does to a line ----

  function Carry(carried: seq<multiset<ConnID>>, i: nat, m: Message): seq<multiset<ConnID>>
    requires i < |carried|
  {
    if m.Close? then carried[i := carried[i] + multiset{m.id}] else carried
  }

  predicate HalfOk(h: Half, relays: nat) {
    |h.line| == relays + 1 && |h.carried| == relays + 2
  }

  predicate WellFormed(s: Chain) {
    HalfOk(s.entry, |s.marks|) && HalfOk(s.exit, |s.marks|)
  }

  function Post(h: Half, m: Message): Half
    requires h.line != [] && h.carried != []
  {
    h.(line := Send(h.line, m), carried := Carry(h.carried, 0, m))
  }

  function Forward(h: Half, i: nat): Half
    requires i + 1 < |h.line| && i + 1 < |h.carried| && h.line[i] != []
  {
    h.(line := Pass(h.line, i), carried := Carry(h.carried, i + 1, h.line[i][0]))
  }

  function Swallow(h: Half, i: nat): Half
    requires i < |h.line| && h.line[i] != []
  {
    h.(line := Pop(h.line, i))
  }

  function Arrive(h: Half): Half
    requires h.line != [] && |h.carried| == |h.line| + 1 && h.line[|h.line| - 1] != []
  {
    h.(line := Pop(h.line, |h.line| - 1), carried := Carry(h.carried, |h.line|, h.line[|h.line| - 1][0]))
  }

  /** A relay handler: a Close of a marked id is swallowed, any other Close marks its id. */
  function RelayLine(h: Half, i: nat, marks: set<ConnID>): Half
    requires i + 1 < |h.line| && i + 1 < |h.carried| && h.line[i] != []
  {
    var m := h.line[i][0];
    if m.Close? && m.id in marks then Swallow(h, i) else Forward(h, i)
  }

  function RelayMarks(m: Message, marks: set<ConnID>): set<ConnID> {
    if m.Close? then marks + {m.id} else marks
  }

  // ---- Steps ----

  function HalfOf(s: Chain, side: Side): Half {
    if side.Entry? then s.entry else s.exit
  }

  function WithHalf(s: Chain, side: Side, h: Half): Chain {
    if side.Entry? then s.(entry := h) else s.(exit := h)
  }

  function WithEnd(s: Chain, side: Side, e: End): Chain {
    WithHalf(s, side, HalfOf(s, side).(end := e))
  }

  /** The hop of the exit's line from which relay r takes its messages. */
  function UpHop(s: Chain, r: nat): nat
    requires r < |s.marks|
  {
    |s.marks| - 1 - r
  }

  predicate Enabled(s: Chain, step: Step)
    requires WellFormed(s)
  {
    match step
    case Accept => s.nextID + 1 < UDP_FLAG
    case SendConnect(c) => c in s.entry.end.dialing
    case Read(side, c, data) => c in HalfOf(s, side).end.reading && |data| <= MAX_PAYLOAD_SIZE
    case SendData(side, c) => c in HalfOf(s, side).end.holding
    case ReaderEnd(side, c) => c in HalfOf(s, side).end.reading
    case SendClose(side, c) => c in HalfOf(s, side).end.owed
    case WriterFails(side, c) => c in HalfOf(s, side).end.conns
    case RelayDown(r) => r < |s.marks| && s.entry.line[r] != []
    case RelayUp(r) => r < |s.marks| && s.exit.line[UpHop(s, r)] != []
    case Expire(r, c) => r < |s.marks|
    case RecvExit(ok) => s.entry.line[|s.marks|] != []
    case RecvEntry(ok) => s.exit.line[|s.marks|] != []
  }

  function Next(s: Chain, step: Step): (s': Chain)
    requires WellFormed(s) && Enabled(s, step)
    ensures WellFormed(s') && |s'.marks| == |s.marks|
  {
    match step
    case Accept =>
      s.(nextID := s.nextID + 1, entry := s.entry.(end := Register(s.entry.end, s.nextID + 1)))
    case SendConnect(c) =>
      var e := s.entry.end;
      s.(entry := Post(s.entry, Connect(c)).(end := e.(dialing := e.dialing - {c}, reading := e.reading + {c})))
    case Read(side, c, data) =>
      WithEnd(s, side, Take(HalfOf(s, side).end, c, data))
    case SendData(side, c) =>
      var h := HalfOf(s, side);
      WithHalf(s, side, Post(h, Data(c, h.end.holding[c])).(end := Release(h.end, c)))
    case ReaderEnd(side, c) =>
      var e := HalfOf(s, side).end;
      WithEnd(s, side, Detach(e.(reading := e.reading - {c}), c))
    case SendClose(side, c) =>
      var h := HalfOf(s, side);
      WithHalf(s, side, Post(h, Close(c)).(end := Pay(h.end, c)))
    case WriterFails(side, c) =>
      var e := HalfOf(s, side).end;
      WithEnd(s, side, e.(conns := e.conns[c := true]))
    case RelayDown(r) =>
      s.(entry := RelayLine(s.entry, r, s.marks[r]),
         marks := s.marks[r := RelayMarks(s.entry.line[r][0], s.marks[r])])
    case RelayUp(r) =>
      var i := UpHop(s, r);
      s.(exit := RelayLine(s.exit, i, s.marks[r]),
         marks := s.marks[r := RelayMarks(s.exit.line[i][0], s.marks[r])])
    case Expire(r, c) =>
      s.(marks := s.marks[r := s.marks[r] - {c}])
    case RecvExit(ok) =>
      var s' := s.(entry := Arrive(s.entry));
      var x := s.exit.end;
      (match s.entry.line[|s.marks|][0]
       case Connect(c) =>
         if ok then s'.(connected := s.connected + {c}, exit := s.exit.(end := Join(x, c)))
         else s'.(connected := s.connected + {c}, exit := Post(s.exit, Close(c)).(end := x.(closed := x.closed + {c})))
       case Data(c, data) => s'.(exit := s.exit.(end := Deliver(x, c, data, ok)))
       case Close(c) => s'.(exit := s.exit.(end := Detach(x, c))))
    case RecvEntry(ok) =>
      var s' := s.(exit := Arrive(s.exit));
      var e := s.entry.end;
      (match s.exit.line[|s.marks|][0]
       case Connect(c) => s'
       case Data(c, data) => s'.(entry := s'.entry.(end := Deliver(e, c, data, ok)))
       case Close(c) => s'.(entry := s'.entry.(end := Detach(e, c))))
  }

  const EMPTY_END := End(map[], {}, {}, map[], {}, {}, map[], map[])

  function EmptyHalf(relays: nat): Half {
    Half(EMPTY_END, seq(relays + 1, _ => []), seq(relays + 2, _ => multiset{}))
  }

  function Init(relays: nat): Chain {
    Chain(EmptyHalf(relays), EmptyHalf(relays), 0, {}, seq(relays, _ => {}))
  }

  /** A run that could have happened: each step was enabled when it was taken. */
  predicate Valid(s: Chain, run: seq<Step>)
    requires WellFormed(s)
    decreases |run|
  {
    run == [] || (Enabled(s, run[0]) && Valid(Next(s, run[0]), run[1..]))
  }

  function After(s: Chain, run: seq<Step>): (r: Chain)
    requires WellFormed(s) && Valid(s, run)
    ensures WellFormed(r) && |r.marks| == |s.marks|
    decreases |run|
  {
    if run == [] then s else After(Next(s, run[0]), run[1..])
  }
}
