/**
 * The asynchronous write queue of a connection: Write, the writer goroutine and
 * Close, interleaved. A Write is one step; the writer and Close take one channel
 * or pool operation at a time.
 */
module WriteQueue {
  import opened Messages

  const QUEUE_SIZE: nat := 4096
  const MAX_BATCH: nat := 128

  /** The writer waits, fills a batch, has written it, returns its buffers, or is gone. */
  datatype Writer = Waiting | Batching | Written(n: nat, ok: bool) | Returning(ok: bool) | Finished

  datatype Closer = Open | Marked | Draining | Closed

  /** A buffer is known by the number of the Write that filled it; sent and accepted are history. */
  datatype Conn = Conn(
    accepted: seq<Bytes>,
    queue: seq<nat>,
    batch: seq<nat>,
    writer: Writer,
    closer: Closer,
    closed: bool,        // the flag that Write looks at
    failed: bool,        // a socket write has failed
    sent: seq<nat>,      // buffers handed to the socket
    socket: Bytes,       // bytes the socket has taken
    traffic: nat,
    returned: seq<nat>)  // buffers given back to the pool

  const NEW := Conn([], [], [], Waiting, Open, false, false, [], [], 0, [])

  datatype Step =
    | Write(data: Bytes)
    | TakeFirst
    | TakeMore
    | WriteOut(n: nat, ok: bool)  // the socket takes n bytes of the batch; all of them unless it fails
    | CountTraffic
    | ReturnBuffer
    | EndBatch
    | WriterStops
    | MarkClosed
    | CloseQueue
    | Drain
    | CloseSocket

  function Join(bufs: seq<Bytes>, ids: seq<nat>): Bytes
    requires forall i :: 0 <= i < |ids| ==> ids[i] < |bufs|
  {
    if ids == [] then [] else Join(bufs, ids[..|ids| - 1]) + bufs[ids[|ids| - 1]]
  }

  predicate QueueClosed(c: Conn) {
    c.closer.Draining? || c.closer.Closed?
  }

  predicate InRange(c: Conn) {
    && (forall i :: 0 <= i < |c.batch| ==> c.batch[i] < |c.accepted|)
    && (forall i :: 0 <= i < |c.queue| ==> c.queue[i] < |c.accepted|)
    && (forall i :: 0 <= i < |c.sent| ==> c.sent[i] < |c.accepted|)
  }

  predicate Enabled(c: Conn, s: Step)
    requires InRange(c)
  {
    match s
    case Write(data) => !c.closed && |c.queue| < QUEUE_SIZE
    case TakeFirst => c.writer.Waiting? && c.queue != []
    case TakeMore => c.writer.Batching? && |c.batch| < MAX_BATCH && c.queue != []
    case WriteOut(n, ok) =>
      && c.writer.Batching?  // a Write may come between the last look at the queue and this
      && n <= |Join(c.accepted, c.batch)| && (ok ==> n == |Join(c.accepted, c.batch)|)
    case CountTraffic => c.writer.Written?
    case ReturnBuffer => c.writer.Returning? && c.batch != []
    case EndBatch => c.writer.Returning? && c.batch == []
    case WriterStops => c.writer.Waiting? && c.queue == [] && QueueClosed(c)
    case MarkClosed => c.closer.Open?
    case CloseQueue => c.closer.Marked?
    case Drain => c.closer.Draining? && c.queue != []
    case CloseSocket => c.closer.Draining? && c.queue == []
  }

  function Next(c: Conn, s: Step): (r: Conn)
    requires InRange(c) && Enabled(c, s)
    ensures InRange(r)
  {
    match s
    case Write(data) => c.(accepted := c.accepted + [data], queue := c.queue + [|c.accepted|])
    case TakeFirst => c.(writer := Batching, batch := [c.queue[0]], queue := c.queue[1..])
    case TakeMore => c.(batch := c.batch + [c.queue[0]], queue := c.queue[1..])
    case WriteOut(n, ok) =>
      c.(writer := Written(n, ok), failed := !ok, sent := c.sent + c.batch,
         socket := c.socket + Join(c.accepted, c.batch)[..n])
    case CountTraffic => c.(writer := Returning(c.writer.ok), traffic := c.traffic + c.writer.n)
    case ReturnBuffer => c.(batch := c.batch[1..], returned := c.returned + [c.batch[0]])
    case EndBatch => if c.writer.ok then c.(writer := Waiting) else c.(writer := Finished, closed := true)
    case WriterStops => c.(writer := Finished)
    case MarkClosed => c.(closer := Marked, closed := true)
    case CloseQueue => c.(closer := Draining)
    case Drain => c.(queue := c.queue[1..], returned := c.returned + [c.queue[0]])
    case CloseSocket => c.(closer := Closed)
  }

  // ---- The invariant ----

  function Upto(n: nat): seq<nat> {
    seq(n, i => i)
  }

  predicate Increasing(ids: seq<nat>) {
    forall i, j :: 0 <= i < j < |ids| ==> ids[i] < ids[j]
  }

  /** Accepted, not dropped, and not handed to the socket yet. */
  function Unsent(c: Conn): seq<nat> {
    if c.writer.Batching? then c.batch + c.queue else c.queue
  }

  predicate InOrder(c: Conn) {
    && Increasing(c.sent + Unsent(c))
    && (!QueueClosed(c) ==> c.sent + Unsent(c) == Upto(|c.accepted|))
  }

  predicate Phases(c: Conn) {
    && (c.writer.Waiting? || c.writer.Finished? ==> c.batch == [])
    && (c.failed ==> c.writer.Finished? || (c.writer.Written? && !c.writer.ok) || (c.writer.Returning? && !c.writer.ok))
    && (c.writer.Written? || c.writer.Returning? ==> (c.failed <==> !c.writer.ok))
    && (QueueClosed(c) || c.closer.Marked? || c.writer.Finished? ==> c.closed)
    && (c.writer.Finished? ==> c.failed || QueueClosed(c))
    && (c.closer.Closed? ==> c.queue == [])
    && |c.queue| <= QUEUE_SIZE && |c.batch| <= MAX_BATCH
  }

  predicate Socket(c: Conn)
    requires InRange(c)
  {
    && (if c.failed then c.socket <= Join(c.accepted, c.sent) else c.socket == Join(c.accepted, c.sent))
    && |c.socket| == c.traffic + if c.writer.Written? then c.writer.n else 0
  }

  /** Every buffer is in the queue, in the batch or back in the pool, and only once. */
  predicate Pooled(c: Conn) {
    multiset(c.returned) + multiset(c.batch) + multiset(c.queue) == multiset(Upto(|c.accepted|))
  }

  predicate ConnOk(c: Conn) {
    InRange(c) && InOrder(c) && Phases(c) && Socket(c) && Pooled(c)
  }

  lemma {:induction false} JoinConcat(bufs: seq<Bytes>, a: seq<nat>, b: seq<nat>)
    requires forall i :: 0 <= i < |a| ==> a[i] < |bufs|
    requires forall i :: 0 <= i < |b| ==> b[i] < |bufs|
    ensures Join(bufs, a + b) == Join(bufs, a) + Join(bufs, b)
  {
    if b == [] {
      assert a + b == a;
    } else {
      assert (a + b)[..|a + b| - 1] == a + b[..|b| - 1];
      JoinConcat(bufs, a, b[..|b| - 1]);
    }
  }

  lemma {:induction false} JoinMore(bufs: seq<Bytes>, data: Bytes, ids: seq<nat>)
    requires forall i :: 0 <= i < |ids| ==> ids[i] < |bufs|
    ensures Join(bufs + [data], ids) == Join(bufs, ids)
  {
    if ids != [] {
      JoinMore(bufs, data, ids[..|ids| - 1]);
    }
  }

  // ---- Order ----

  lemma UptoNext(n: nat)
    ensures Upto(n + 1) == Upto(n) + [n]
  {
  }

  lemma DropFrom(a: seq<nat>, b: seq<nat>)
    requires b != [] && Increasing(a + b)
    ensures Increasing(a + b[1..])
  {
    forall i, j | 0 <= i < j < |a + b[1..]|
      ensures (a + b[1..])[i] < (a + b[1..])[j]
    {
      assert (a + b[1..])[i] == (a + b)[if i < |a| then i else i + 1];
      assert (a + b[1..])[j] == (a + b)[if j < |a| then j else j + 1];
    }
  }

  lemma AddLast(ids: seq<nat>, n: nat)
    requires Increasing(ids) && forall i :: 0 <= i < |ids| ==> ids[i] < n
    ensures Increasing(ids + [n])
  {
  }

  lemma WriteOrder(c: Conn, data: Bytes)
    requires ConnOk(c) && Enabled(c, Write(data))
    ensures InOrder(Next(c, Write(data)))
  {
    var d := Next(c, Write(data));
    UptoNext(|c.accepted|);
    assert d.sent + Unsent(d) == (c.sent + Unsent(c)) + [|c.accepted|];
    AddLast(c.sent + Unsent(c), |c.accepted|);
  }

  lemma TakeOrder(c: Conn, s: Step)
    requires ConnOk(c) && Enabled(c, s) && (s.TakeFirst? || s.TakeMore? || s.WriteOut?)
    ensures InOrder(Next(c, s))
  {
    var d := Next(c, s);
    if s.WriteOut? {
      assert d.sent + Unsent(d) == c.sent + Unsent(c);
    } else {
      assert Unsent(d) == Unsent(c);
    }
  }

  lemma OrderStep(c: Conn, s: Step)
    requires ConnOk(c) && Enabled(c, s)
    ensures InOrder(Next(c, s))
  {
    match s
    case Write(data) => WriteOrder(c, data);
    case TakeFirst => TakeOrder(c, s);
    case TakeMore => TakeOrder(c, s);
    case WriteOut(_, _) => TakeOrder(c, s);
    case Drain => DrainOrder(c);
    case _ => assert Next(c, s).sent == c.sent && Unsent(Next(c, s)) == Unsent(c);
  }

  lemma DrainOrder(c: Conn)
    requires ConnOk(c) && Enabled(c, Drain)
    ensures InOrder(Next(c, Drain))
  {
    if c.writer.Batching? {
      assert c.sent + (c.batch + c.queue) == (c.sent + c.batch) + c.queue;
      assert c.sent + (c.batch + c.queue[1..]) == (c.sent + c.batch) + c.queue[1..];
      DropFrom(c.sent + c.batch, c.queue);
    } else {
      DropFrom(c.sent, c.queue);
    }
  }

  // ---- Bytes ----

  lemma SocketStep(c: Conn, s: Step)
    requires ConnOk(c) && Enabled(c, s)
    ensures Socket(Next(c, s))
  {
    match s
    case Write(data) => JoinMore(c.accepted, data, c.sent);
    case WriteOut(n, ok) =>
      JoinConcat(c.accepted, c.sent, c.batch);
      assert !c.failed;
    case _ =>
  }

  // ---- Buffers ----

  lemma HeadOut(ids: seq<nat>)
    requires ids != []
    ensures multiset(ids) == multiset{ids[0]} + multiset(ids[1..])
  {
    assert ids == [ids[0]] + ids[1..];
  }

  lemma PoolTake(c: Conn, s: Step)
    requires ConnOk(c) && Enabled(c, s) && (s.TakeFirst? || s.TakeMore?)
    ensures Pooled(Next(c, s))
  {
    HeadOut(c.queue);
    assert multiset(Next(c, s).batch) == multiset(c.batch) + multiset{c.queue[0]};
  }

  lemma PoolReturn(c: Conn)
    requires ConnOk(c) && Enabled(c, ReturnBuffer)
    ensures Pooled(Next(c, ReturnBuffer))
  {
    HeadOut(c.batch);
    assert multiset(c.returned + [c.batch[0]]) == multiset(c.returned) + multiset{c.batch[0]};
  }

  lemma PoolDrain(c: Conn)
    requires ConnOk(c) && Enabled(c, Drain)
    ensures Pooled(Next(c, Drain))
  {
    HeadOut(c.queue);
    assert multiset(c.returned + [c.queue[0]]) == multiset(c.returned) + multiset{c.queue[0]};
  }

  lemma PoolWrite(c: Conn, data: Bytes)
    requires ConnOk(c) && Enabled(c, Write(data))
    ensures Pooled(Next(c, Write(data)))
  {
    var n: nat := |c.accepted|;
    UptoNext(n);
    assert Next(c, Write(data)).queue == c.queue + [n];
  }

  lemma PoolStep(c: Conn, s: Step)
    requires ConnOk(c) && Enabled(c, s)
    ensures Pooled(Next(c, s))
  {
    match s
    case Write(data) => PoolWrite(c, data);
    case TakeFirst => PoolTake(c, s);
    case TakeMore => PoolTake(c, s);
    case ReturnBuffer => PoolReturn(c);
    case Drain => PoolDrain(c);
    case _ =>
  }

  lemma PhaseStep(c: Conn, s: Step)
    requires ConnOk(c) && Enabled(c, s)
    ensures Phases(Next(c, s))
  {
  }

  // ---- Runs ----

  predicate Valid(c: Conn, run: seq<Step>)
    requires InRange(c)
    decreases |run|
  {
    run == [] || (Enabled(c, run[0]) && Valid(Next(c, run[0]), run[1..]))
  }

  function After(c: Conn, run: seq<Step>): (r: Conn)
    requires InRange(c) && Valid(c, run)
    ensures InRange(r)
    decreases |run|
  {
    if run == [] then c else After(Next(c, run[0]), run[1..])
  }

  lemma {:induction false} RunOk(c: Conn, run: seq<Step>)
    requires ConnOk(c) && Valid(c, run)
    ensures ConnOk(After(c, run))
    decreases |run|
  {
    if run != [] {
      OrderStep(c, run[0]);
      SocketStep(c, run[0]);
      PoolStep(c, run[0]);
      PhaseStep(c, run[0]);
      RunOk(Next(c, run[0]), run[1..]);
    }
  }

  lemma {:induction false} ClosedAcceptsNothing(c: Conn, run: seq<Step>)
    requires ConnOk(c) && c.closed && Valid(c, run)
    ensures After(c, run).accepted == c.accepted && After(c, run).closed
    decreases |run|
  {
    if run != [] {
      OrderStep(c, run[0]);
      SocketStep(c, run[0]);
      PoolStep(c, run[0]);
      PhaseStep(c, run[0]);
      ClosedAcceptsNothing(Next(c, run[0]), run[1..]);
    }
  }

  /**
   * Once the writer is gone, after a failed socket write as after Close, nothing
   * is accepted any more: no Write succeeds whose bytes nobody would write.
   */
  lemma NothingAcceptedWithoutWriter(run: seq<Step>, more: seq<Step>)
    requires Valid(NEW, run) && After(NEW, run).writer.Finished? && Valid(After(NEW, run), more)
    ensures After(After(NEW, run), more).accepted == After(NEW, run).accepted
  {
    NewOk();
    RunOk(NEW, run);
    ClosedAcceptsNothing(After(NEW, run), more);
  }

  lemma NewOk()
    ensures ConnOk(NEW)
  {
  }

  /** All bytes accepted so far, in the order they were accepted. */
  function Accepted(c: Conn): Bytes {
    Join(c.accepted, Upto(|c.accepted|))
  }

  /** Until Close closes the queue, the socket has taken a prefix of the bytes accepted. */
  lemma PrefixBeforeClose(run: seq<Step>)
    requires Valid(NEW, run) && !QueueClosed(After(NEW, run))
    ensures After(NEW, run).socket <= Accepted(After(NEW, run))
  {
    NewOk();
    RunOk(NEW, run);
    var c := After(NEW, run);
    assert forall i :: 0 <= i < |Unsent(c)| ==> Unsent(c)[i] < |c.accepted|;
    JoinConcat(c.accepted, c.sent, Unsent(c));
  }

  /** All of them, once the writer waits on an empty queue. */
  lemma IdleMeansWritten(run: seq<Step>)
    requires Valid(NEW, run)
    requires var c := After(NEW, run); !QueueClosed(c) && c.writer.Waiting? && c.queue == []
    ensures var c := After(NEW, run); c.socket == Accepted(c) && c.traffic == |Accepted(c)|
  {
    NewOk();
    RunOk(NEW, run);
    var c := After(NEW, run);
    assert c.sent + [] == c.sent;
  }

  /** Close may drop buffers, but what is written is still whole buffers in order, the last perhaps cut short by an error. */
  lemma SubsequenceAlways(run: seq<Step>)
    requires Valid(NEW, run)
    ensures var c := After(NEW, run);
      && Increasing(c.sent) && (forall i :: 0 <= i < |c.sent| ==> c.sent[i] < |c.accepted|)
      && c.socket <= Join(c.accepted, c.sent) && (!c.failed ==> c.socket == Join(c.accepted, c.sent))
  {
    NewOk();
    RunOk(NEW, run);
    var c := After(NEW, run);
    forall i, j | 0 <= i < j < |c.sent|
      ensures c.sent[i] < c.sent[j]
    {
      assert (c.sent + Unsent(c))[i] < (c.sent + Unsent(c))[j];
    }
  }

  /** Traffic is the number of bytes on the socket whenever the writer is between writes. */
  lemma TrafficIsBytesWritten(run: seq<Step>)
    requires Valid(NEW, run) && !After(NEW, run).writer.Written?
    ensures After(NEW, run).traffic == |After(NEW, run).socket|
  {
    NewOk();
    RunOk(NEW, run);
  }

  /** No buffer is ever returned twice; once Close and the writer are done, each has been returned. */
  lemma EachBufferReturnedOnce(run: seq<Step>, id: nat)
    requires Valid(NEW, run)
    ensures var c := After(NEW, run);
      && multiset(c.returned)[id] <= 1
      && (c.closer.Closed? && c.writer.Finished? ==> (multiset(c.returned)[id] == 1 <==> id < |c.accepted|))
  {
    NewOk();
    RunOk(NEW, run);
    var c := After(NEW, run);
    UptoOnce(|c.accepted|, id);
    assert multiset(c.returned)[id] + multiset(c.batch)[id] + multiset(c.queue)[id] == multiset(Upto(|c.accepted|))[id];
  }

  lemma {:induction false} UptoOnce(n: nat, id: nat)
    ensures multiset(Upto(n))[id] == if id < n then 1 else 0
  {
    if n > 0 {
      UptoOnce(n - 1, id);
      UptoNext(n - 1);
    }
  }

  // ---- Everything gets written ----

  /** The next step of the writer when the socket takes everything. */
  function WriterStep(c: Conn): Step
    requires InRange(c)
  {
    match c.writer
    case Waiting => TakeFirst
    case Batching => WriteOut(|Join(c.accepted, c.batch)|, true)
    case Written(_, _) => CountTraffic
    case _ => if c.batch == [] then EndBatch else ReturnBuffer
  }

  function PhaseRank(w: Writer): nat {
    match w
    case Batching => 3
    case Written(_, _) => 2
    case Returning(_) => 1
    case _ => 0
  }

  predicate OfWriter(s: Step) {
    s.TakeFirst? || (s.WriteOut? && s.ok) || s.CountTraffic? || s.ReturnBuffer? || s.EndBatch?
  }

  predicate Working(c: Conn) {
    ConnOk(c) && !c.failed && !QueueClosed(c) && !c.writer.Finished?
  }

  lemma WriterWorks(c: Conn)
    requires Working(c) && !(c.writer.Waiting? && c.queue == [])
    ensures var s := WriterStep(c);
      && Enabled(c, s) && OfWriter(s) && Working(Next(c, s)) && Next(c, s).accepted == c.accepted
      && (|Next(c, s).queue| < |c.queue| ||
          (Next(c, s).queue == c.queue && (PhaseRank(Next(c, s).writer) < PhaseRank(c.writer) ||
            (Next(c, s).writer == c.writer && |Next(c, s).batch| < |c.batch|))))
  {
    var s := WriterStep(c);
    OrderStep(c, s);
    SocketStep(c, s);
    PoolStep(c, s);
    PhaseStep(c, s);
  }

  lemma {:induction false} CatchUp(c: Conn) returns (more: seq<Step>)
    requires Working(c)
    ensures Valid(c, more) && forall i :: 0 <= i < |more| ==> OfWriter(more[i])
    ensures var d := After(c, more); Working(d) && d.writer.Waiting? && d.queue == [] && d.accepted == c.accepted
    decreases |c.queue|, PhaseRank(c.writer), |c.batch|
  {
    if c.writer.Waiting? && c.queue == [] {
      more := [];
    } else {
      WriterWorks(c);
      var rest := CatchUp(Next(c, WriterStep(c)));
      more := [WriterStep(c)] + rest;
      assert more[1..] == rest;
    }
  }

  /** As long as the socket takes what it is given and nobody closes, the writer alone gets everything accepted onto the socket. */
  lemma EverythingGetsWritten(run: seq<Step>) returns (more: seq<Step>)
    requires Valid(NEW, run) && !After(NEW, run).failed && !QueueClosed(After(NEW, run))
    ensures var c := After(NEW, run);
      && Valid(c, more) && (forall i :: 0 <= i < |more| ==> OfWriter(more[i]))
      && After(c, more).socket == Accepted(c) && After(c, more).traffic == |Accepted(c)|
  {
    NewOk();
    RunOk(NEW, run);
    more := CatchUp(After(NEW, run));
    var d := After(After(NEW, run), more);
    assert d.sent + [] == d.sent;
  }

  // ---- The object ----

  predicate Filling(c: Conn) {
    InRange(c) && c.writer.Batching? && |c.batch| <= MAX_BATCH
  }

  /** The writer's TakeMore steps until the batch is full or the queue is empty. */
  function Fill(c: Conn): (r: Conn)
    requires Filling(c)
    ensures |r.batch| == MAX_BATCH || r.queue == []
    ensures r.batch + r.queue == c.batch + c.queue
    decreases |c.queue|
  {
    if |c.batch| == MAX_BATCH || c.queue == [] then c
    else
      var d := Next(c, TakeMore);
      assert d.batch + d.queue == c.batch + c.queue;
      Fill(d)
  }

  /** What follows a socket write. */
  function Settled(c: Conn): Conn
    requires c.writer.Written?
  {
    c.(writer := if c.writer.ok then Waiting else Finished, closed := c.closed || !c.writer.ok,
       traffic := c.traffic + c.writer.n, returned := c.returned + c.batch, batch := [])
  }

  function Shut(c: Conn): Conn {
    c.(closed := true, closer := Closed, returned := c.returned + c.queue, queue := [])
  }

  class ConnState {
    var queue: seq<nat>
    var buffers: seq<Bytes>
    var closed: bool
    var pbs: seq<nat>
    var traffic: nat
    var socket: Bytes
    var pool: seq<nat>
    var closer: Closer     // closeOnce
    ghost var writer: Writer
    ghost var failed: bool
    ghost var sent: seq<nat>

    ghost function State(): Conn
      reads this
    {
      Conn(buffers, queue, pbs, writer, closer, closed, failed, sent, socket, traffic, pool)
    }

    constructor ()
      ensures State() == NEW
    {
      queue, buffers, closed, pbs, traffic, socket, pool, closer := [], [], false, [], 0, [], [], Open;
      writer, failed, sent := Waiting, false, [];
    }

    /** room: the queue has room within the time-out. */
    method Write(data: Bytes, room: bool) returns (ok: bool)
      requires InRange(State()) && (room ==> |queue| < QUEUE_SIZE)
      modifies this`queue, this`buffers
      ensures ok <==> !closed && room
      ensures ok ==> Enabled(old(State()), Step.Write(data)) && State() == Next(old(State()), Step.Write(data))
      ensures !ok ==> State() == old(State())
    {
      if closed || !room {
        return false;
      }
      buffers := buffers + [data];
      queue := queue + [|buffers| - 1];
      return true;
    }

    /** The writer's drain loop, with nobody else at the queue. */
    method FillBatch()
      requires Filling(State())
      modifies this`queue, this`pbs
      ensures State() == Fill(old(State()))
    {
      while |pbs| < MAX_BATCH && queue != []
        invariant Filling(State()) && Fill(State()) == Fill(old(State()))
        decreases |queue|
      {
        pbs, queue := pbs + [queue[0]], queue[1..];
      }
    }

    /** After WriteTo: count, give every buffer back, and give up if the socket failed. */
    method FinishBatch(n: nat, ok: bool)
      requires writer == Written(n, ok)
      modifies this`traffic, this`pool, this`pbs, this`closed, this`writer
      ensures State() == Settled(old(State()))
    {
      if n > 0 {
        traffic := traffic + n;
      }
      var i := 0;
      while i < |pbs|
        invariant 0 <= i <= |pbs| && pbs == old(pbs) && pool == old(pool) + old(pbs)[..i]
        modifies this`pool
      {
        pool := pool + [pbs[i]];
        i := i + 1;
      }
      assert old(pbs)[..|pbs|] == old(pbs);
      pbs := [];
      if !ok {
        closed, writer := true, Finished;
        return;
      }
      writer := Waiting;
    }

    /** With nobody else at the queue: everything left in it goes back to the pool. */
    method Close()
      modifies this`closed, this`queue, this`pool, this`closer
      ensures State() == if old(closer).Open? then Shut(old(State())) else old(State())
    {
      if closer.Open? {
        closed, closer := true, Draining;
        ghost var k := 0;
        while queue != []
          invariant k <= |old(queue)| && queue == old(queue)[k..] && pool == old(pool) + old(queue)[..k]
          decreases |queue|
          modifies this`queue, this`pool
        {
          pool, queue := pool + [queue[0]], queue[1..];
          k := k + 1;
        }
        assert old(queue)[..k] == old(queue);
        closer := Closed;
      }
    }
  }

  lemma Prepend(c: Conn, s: Step, rest: seq<Step>) returns (run: seq<Step>)
    requires InRange(c) && Enabled(c, s) && Valid(Next(c, s), rest)
    ensures Valid(c, run) && After(c, run) == After(Next(c, s), rest)
  {
    run := [s] + rest;
    assert run[1..] == rest;
  }

  lemma MoveHead(a: seq<nat>, b: seq<nat>)
    requires b != []
    ensures a + [b[0]] + b[1..] == a + b
  {
  }

  lemma {:induction false} ReturnIsSteps(c: Conn) returns (run: seq<Step>)
    requires InRange(c) && c.writer.Returning?
    ensures Valid(c, run)
    ensures After(c, run) == c.(writer := if c.writer.ok then Waiting else Finished, closed := c.closed || !c.writer.ok,
                                returned := c.returned + c.batch, batch := [])
    decreases |c.batch|
  {
    if c.batch == [] {
      run := [EndBatch];
      assert run[1..] == [] && c.returned + [] == c.returned;
    } else {
      var rest := ReturnIsSteps(Next(c, ReturnBuffer));
      run := Prepend(c, ReturnBuffer, rest);
      MoveHead(c.returned, c.batch);
    }
  }

  lemma FinishIsSteps(c: Conn) returns (run: seq<Step>)
    requires InRange(c) && c.writer.Written?
    ensures Valid(c, run) && After(c, run) == Settled(c)
  {
    var rest := ReturnIsSteps(Next(c, CountTraffic));
    run := Prepend(c, CountTraffic, rest);
  }

  lemma {:induction false} DrainIsSteps(c: Conn) returns (run: seq<Step>)
    requires InRange(c) && c.closer.Draining?
    ensures Valid(c, run)
    ensures After(c, run) == c.(closer := Closed, returned := c.returned + c.queue, queue := [])
    decreases |c.queue|
  {
    if c.queue == [] {
      run := [CloseSocket];
      assert run[1..] == [] && c.returned + [] == c.returned;
    } else {
      var rest := DrainIsSteps(Next(c, Drain));
      run := Prepend(c, Drain, rest);
      MoveHead(c.returned, c.queue);
    }
  }

  lemma CloseIsSteps(c: Conn) returns (run: seq<Step>)
    requires InRange(c) && c.closer.Open?
    ensures Valid(c, run) && After(c, run) == Shut(c)
  {
    var marked := Next(c, MarkClosed);
    var rest := DrainIsSteps(Next(marked, CloseQueue));
    rest := Prepend(marked, CloseQueue, rest);
    run := Prepend(c, MarkClosed, rest);
  }
}
