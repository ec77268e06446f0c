/**
 * The entry's UDP bookkeeping: client address -> client, and connection id ->
 * client address for the way back. Both maps must stay inverse to each other.
 */
module UdpIndex {
  import opened Messages

  type Addr = string

  const IDLE_TIMEOUT: int := 120_000_000_000  // udpIdleTimeout, in nanoseconds

  datatype Client = Client(connID: ConnID, tunnelIdx: int, lastActive: int)

  datatype Index = Index(clients: map<Addr, Client>, ids: map<ConnID, Addr>)

  // ---- Connection id flag ----

  /** id | 1<<63 on a 64-bit id. */
  function MakeUDPConnID(id: nat): nat
    requires id < 2 * UDP_FLAG
  {
    if id >= UDP_FLAG then id else id + UDP_FLAG
  }

  predicate IsUDPConnID(id: nat)
    requires id < 2 * UDP_FLAG
  {
    id / UDP_FLAG % 2 == 1
  }

  function GetConnIDValue(id: nat): nat
    requires id < 2 * UDP_FLAG
  {
    id % UDP_FLAG
  }

  /** Below 2^63 ids, flagging is reversible and keeps UDP ids apart from every TCP id. */
  lemma FlagSeparates(id: nat, tcp: nat)
    requires id < UDP_FLAG && tcp < UDP_FLAG
    ensures IsUDPConnID(MakeUDPConnID(id)) && GetConnIDValue(MakeUDPConnID(id)) == id
    ensures !IsUDPConnID(tcp) && MakeUDPConnID(id) != tcp
  {
    assert (id + UDP_FLAG) / UDP_FLAG == 1;
    assert (id + UDP_FLAG) % UDP_FLAG == id;
  }

  // ---- The two maps ----

  predicate Inverse(x: Index) {
    && (forall a :: a in x.clients ==> x.clients[a].connID in x.ids && x.ids[x.clients[a].connID] == a)
    && (forall id :: id in x.ids ==> x.ids[id] in x.clients && x.clients[x.ids[id]].connID == id)
  }

  predicate Issued(x: Index, last: nat) {
    forall id :: id in x.ids ==> 1 <= id <= last
  }

  function Touch(x: Index, a: Addr, now: int): Index
    requires a in x.clients
  {
    x.(clients := x.clients[a := x.clients[a].(lastActive := now)])
  }

  function Create(x: Index, a: Addr, id: ConnID, tunnelIdx: int, now: int): Index {
    Index(x.clients[a := Client(id, tunnelIdx, now)], x.ids[id := a])
  }

  /** closeUDPConn */
  function CloseID(x: Index, id: ConnID): Index {
    if id in x.ids then Index(x.clients - {x.ids[id]}, x.ids - {id}) else x
  }

  predicate Idle(x: Index, a: Addr, now: int) {
    a in x.clients && now - x.clients[a].lastActive > IDLE_TIMEOUT
  }

  /** The clean-up drops the listed clients that are still idle, with their ids. */
  function Clean(x: Index, listed: seq<Addr>, now: int): Index {
    Index(
      x.clients - (set a | a in x.clients && a in listed && Idle(x, a, now)),
      x.ids - (set id | id in x.ids && x.ids[id] in listed && Idle(x, x.ids[id], now)))
  }

  lemma TouchInverse(x: Index, a: Addr, now: int)
    requires Inverse(x) && a in x.clients
    ensures Inverse(Touch(x, a, now))
  {
    var y := Touch(x, a, now);
    forall b | b in y.clients
      ensures y.clients[b].connID in y.ids && y.ids[y.clients[b].connID] == b
    {
      assert y.clients[b].connID == x.clients[b].connID;
    }
  }

  lemma CreateInverse(x: Index, a: Addr, id: ConnID, tunnelIdx: int, now: int, last: nat)
    requires Inverse(x) && Issued(x, last) && a !in x.clients && id == last + 1
    ensures Inverse(Create(x, a, id, tunnelIdx, now)) && Issued(Create(x, a, id, tunnelIdx, now), id)
  {
  }

  /** Closing an id removes its own client and leaves every other client, its id and its tunnel alone. */
  lemma CloseEvictsOnlyItsClient(x: Index, id: ConnID)
    requires Inverse(x)
    ensures var y := CloseID(x, id);
      && Inverse(y) && id !in y.ids
      && (forall a :: a in x.clients && x.clients[a].connID != id ==> a in y.clients && y.clients[a] == x.clients[a])
      && (forall a :: a in y.clients ==> a in x.clients && x.clients[a].connID != id && y.clients[a] == x.clients[a])
  {
    if id in x.ids {
      assert x.clients[x.ids[id]].connID == id;
    }
  }

  /** The clean-up removes exactly the listed idle clients; the maps stay inverse. */
  lemma CleanInverse(x: Index, listed: seq<Addr>, now: int)
    requires Inverse(x)
    ensures var y := Clean(x, listed, now);
      && Inverse(y)
      && (forall a :: a in y.clients <==> a in x.clients && !(a in listed && now - x.clients[a].lastActive > IDLE_TIMEOUT))
      && (forall a :: a in y.clients ==> y.clients[a] == x.clients[a])
  {
  }

  lemma CleanNothing(x: Index, now: int)
    ensures Clean(x, [], now) == x
  {
    assert Clean(x, [], now).clients == x.clients;
    assert Clean(x, [], now).ids == x.ids;
  }

  lemma {:induction false} CleanOne(x: Index, listed: seq<Addr>, a: Addr, now: int)
    requires Inverse(x) && a !in listed
    ensures Clean(x, listed + [a], now)
         == if Idle(x, a, now) then CloseID(Clean(x, listed, now), x.clients[a].connID) else Clean(x, listed, now)
  {
    var y, z := Clean(x, listed, now), Clean(x, listed + [a], now);
    if Idle(x, a, now) {
      var id := x.clients[a].connID;
      assert x.ids[id] == a && y.ids[id] == a;
      var w := CloseID(y, id);
      assert forall i :: i in z.ids <==> i in w.ids;
      assert z.ids == w.ids;
      assert z.clients == w.clients;
    } else {
      assert z.ids == y.ids;
      assert z.clients == y.clients;
    }
  }

  /** getTunnelByIndex: an index out of range means the first tunnel. */
  function TunnelFor(idx: int, tunnels: nat): nat {
    if 0 <= idx < tunnels then idx else 0
  }

  /** The Close messages of a clean-up: one per removed client, on that client's tunnel. */
  function CloseMessages(x: Index, keys: seq<Addr>, now: int, tunnels: nat): seq<(nat, ConnID)> {
    if keys == [] then []
    else CloseMessages(x, keys[..|keys| - 1], now, tunnels) + CloseMessage(x, keys[|keys| - 1], now, tunnels)
  }

  function CloseMessage(x: Index, a: Addr, now: int, tunnels: nat): seq<(nat, ConnID)> {
    if Idle(x, a, now) then [(TunnelFor(x.clients[a].tunnelIdx, tunnels), x.clients[a].connID)] else []
  }

  lemma CloseMessagesSnoc(x: Index, keys: seq<Addr>, a: Addr, now: int, tunnels: nat)
    ensures CloseMessages(x, keys + [a], now, tunnels)
         == CloseMessages(x, keys, now, tunnels) + CloseMessage(x, a, now, tunnels)
  {
    assert (keys + [a])[..|keys|] == keys;
  }

  /** One round of the clean-up loop. */
  lemma CleanNext(x: Index, keys: seq<Addr>, i: nat, now: int, tunnels: nat)
    requires Inverse(x) && i < |keys| && keys[i] !in keys[..i]
    ensures var y := Clean(x, keys[..i], now);
      && Clean(x, keys[..i + 1], now) == (if Idle(y, keys[i], now) then CloseID(y, y.clients[keys[i]].connID) else y)
      && CloseMessages(x, keys[..i + 1], now, tunnels)
         == CloseMessages(x, keys[..i], now, tunnels) + CloseMessage(y, keys[i], now, tunnels)
  {
    assert keys[..i + 1] == keys[..i] + [keys[i]];
    CleanOne(x, keys[..i], keys[i], now);
    CloseMessagesSnoc(x, keys[..i], keys[i], now, tunnels);
  }

  /** Every client that a clean-up removes is told so exactly once, on its own tunnel, and nobody else is. */
  lemma {:induction false} CleanTellsEachOnce(x: Index, keys: seq<Addr>, now: int, tunnels: nat, id: ConnID)
    requires Inverse(x) && forall i, j :: 0 <= i < j < |keys| ==> keys[i] != keys[j]
    ensures var told := multiset(CloseMessages(x, keys, now, tunnels));
      forall t :: told[(t, id)] ==
        if id in x.ids && x.ids[id] in keys && now - x.clients[x.ids[id]].lastActive > IDLE_TIMEOUT
           && t == (var own := x.clients[x.ids[id]].tunnelIdx; if 0 <= own < tunnels then own else 0) then 1 else 0
  {
    if keys != [] {
      var init, a := keys[..|keys| - 1], keys[|keys| - 1];
      assert keys == init + [a];
      CleanTellsEachOnce(x, init, now, tunnels, id);
      assert a !in init;
    }
  }

  // ---- Runs ----

  datatype UdpOp =
    | Packet(addr: Addr, chosen: nat, now: int)   // getOrCreateUDPConnID
    | Reply(id: ConnID, now: int)                 // handleUDPData
    | TunnelClose(id: ConnID)                     // closeUDPConn
    | CleanUp(listed: seq<Addr>, now: int)        // the second pass of cleanupIdleUDPClients
    | TcpAccept                                   // a TCP connection takes the next id
    | Stop

  datatype Entry = Entry(x: Index, last: nat)

  function Apply(e: Entry, op: UdpOp): Entry {
    match op
    case Packet(a, chosen, now) =>
      if a in e.x.clients then e.(x := Touch(e.x, a, now))
      else Entry(Create(e.x, a, e.last + 1, chosen, now), e.last + 1)
    case Reply(id, now) =>
      if id in e.x.ids && e.x.ids[id] in e.x.clients then e.(x := Touch(e.x, e.x.ids[id], now)) else e
    case TunnelClose(id) => e.(x := CloseID(e.x, id))
    case CleanUp(listed, now) => e.(x := Clean(e.x, listed, now))
    case TcpAccept => e.(last := e.last + 1)
    case Stop => e.(x := Index(map[], map[]))
  }

  function ApplyAll(e: Entry, ops: seq<UdpOp>): Entry
    decreases |ops|
  {
    if ops == [] then e else ApplyAll(Apply(e, ops[0]), ops[1..])
  }

  predicate Good(e: Entry) {
    Inverse(e.x) && Issued(e.x, e.last)
  }

  /** An id of y is either new, or x's own id with the same client and the same tunnel. */
  predicate KeepsOldIds(x: Entry, y: Entry) {
    x.last <= y.last &&
    forall id :: id in y.x.ids && id <= x.last ==>
      && id in x.x.ids && y.x.ids[id] == x.x.ids[id]
      && y.x.ids[id] in y.x.clients && x.x.ids[id] in x.x.clients
      && y.x.clients[y.x.ids[id]].tunnelIdx == x.x.clients[x.x.ids[id]].tunnelIdx
  }

  lemma ApplyGood(e: Entry, op: UdpOp)
    requires Good(e)
    ensures Good(Apply(e, op)) && KeepsOldIds(e, Apply(e, op))
  {
    match op
    case Packet(a, chosen, now) =>
      if a in e.x.clients { TouchInverse(e.x, a, now); } else { CreateInverse(e.x, a, e.last + 1, chosen, now, e.last); }
    case Reply(id, now) => if id in e.x.ids { TouchInverse(e.x, e.x.ids[id], now); }
    case TunnelClose(id) => CloseEvictsOnlyItsClient(e.x, id);
    case CleanUp(listed, now) => CleanInverse(e.x, listed, now);
    case _ =>
  }

  /**
   * Over any run the two maps stay inverse, and an id means the same client on
   * the same tunnel for as long as it is known; once gone it never comes back.
   */
  lemma {:induction false} IdsAreStable(e: Entry, ops: seq<UdpOp>)
    requires Good(e)
    ensures Good(ApplyAll(e, ops)) && KeepsOldIds(e, ApplyAll(e, ops))
    decreases |ops|
  {
    if ops != [] {
      ApplyGood(e, ops[0]);
      IdsAreStable(Apply(e, ops[0]), ops[1..]);
      KeepsTransitive(e, Apply(e, ops[0]), ApplyAll(e, ops));
    }
  }

  lemma KeepsTransitive(a: Entry, b: Entry, c: Entry)
    requires KeepsOldIds(a, b) && KeepsOldIds(b, c)
    ensures KeepsOldIds(a, c)
  {
    forall id | id in c.x.ids && id <= a.last
      ensures && id in a.x.ids && c.x.ids[id] == a.x.ids[id]
              && c.x.ids[id] in c.x.clients && a.x.ids[id] in a.x.clients
              && c.x.clients[c.x.ids[id]].tunnelIdx == a.x.clients[a.x.ids[id]].tunnelIdx
    {
      assert id <= b.last && id in b.x.ids;
    }
  }

  /**
   * What ends an id ends it for good: closed from the tunnel, forgotten by a stop,
   * or taken by a TCP connection, it is no UDP client's id in any run afterwards.
   */
  lemma GoneForGood(e: Entry, op: UdpOp, ops: seq<UdpOp>, id: ConnID)
    requires Good(e) && if op.TcpAccept? then id == e.last + 1 else id <= e.last && (op == TunnelClose(id) || op.Stop?)
    ensures id !in ApplyAll(Apply(e, op), ops).x.ids
  {
    ApplyGood(e, op);
    if op.TunnelClose? { CloseEvictsOnlyItsClient(e.x, id); }
    IdsAreStable(Apply(e, op), ops);
  }

  // ---- Idle means not heard of ----

  /** A packet of the client, or a reply to it, at time t. */
  predicate Hears(e: Entry, op: UdpOp, a: Addr, t: int) {
    || (op.Packet? && op.addr == a && op.now == t)
    || (op.Reply? && op.id in e.x.ids && e.x.ids[op.id] == a && op.now == t)
  }

  /** Neither heard of, nor closed from the tunnel, nor looked at by a clean-up, nor stopped. */
  predicate LeavesAlone(e: Entry, op: UdpOp, a: Addr) {
    match op
    case Packet(b, _, _) => b != a
    case Reply(id, _) => id in e.x.ids ==> e.x.ids[id] != a
    case TunnelClose(id) => id in e.x.ids ==> e.x.ids[id] != a
    case CleanUp(listed, _) => a !in listed
    case TcpAccept => true
    case Stop => false
  }

  predicate AllLeaveAlone(e: Entry, ops: seq<UdpOp>, a: Addr)
    decreases |ops|
  {
    ops == [] || (LeavesAlone(e, ops[0], a) && AllLeaveAlone(Apply(e, ops[0]), ops[1..], a))
  }

  predicate HeardAt(e: Entry, a: Addr, t: int) {
    a in e.x.clients && e.x.clients[a].lastActive == t
  }

  lemma AloneStaysHeard(e: Entry, op: UdpOp, a: Addr, t: int)
    requires Good(e) && HeardAt(e, a, t) && LeavesAlone(e, op, a)
    ensures HeardAt(Apply(e, op), a, t)
  {
    match op
    case TunnelClose(id) => CloseEvictsOnlyItsClient(e.x, id);
    case CleanUp(listed, now) => CleanInverse(e.x, listed, now);
    case _ =>
  }

  lemma {:induction false} AllAloneStaysHeard(e: Entry, ops: seq<UdpOp>, a: Addr, t: int)
    requires Good(e) && HeardAt(e, a, t) && AllLeaveAlone(e, ops, a)
    ensures Good(ApplyAll(e, ops)) && HeardAt(ApplyAll(e, ops), a, t)
    decreases |ops|
  {
    if ops != [] {
      AloneStaysHeard(e, ops[0], a, t);
      ApplyGood(e, ops[0]);
      AllAloneStaysHeard(Apply(e, ops[0]), ops[1..], a, t);
    }
  }

  /**
   * The clean-up goes by when a client was last heard of, either way: heard of at
   * time t, and then left alone, it is removed by a clean-up that lists it if and
   * only if more than two minutes have passed, and its id goes with it.
   */
  lemma RemovedExactlyWhenSilent(e: Entry, heard: UdpOp, ops: seq<UdpOp>, a: Addr, t: int, listed: seq<Addr>, now: int)
    requires Good(e) && Hears(e, heard, a, t) && AllLeaveAlone(Apply(e, heard), ops, a) && a in listed
    ensures var before := ApplyAll(Apply(e, heard), ops);
      var after := Apply(before, CleanUp(listed, now));
      && a in before.x.clients
      && (a in after.x.clients <==> now - t <= 120_000_000_000)
      && (before.x.clients[a].connID in after.x.ids <==> now - t <= 120_000_000_000)
  {
    ApplyGood(e, heard);
    AllAloneStaysHeard(Apply(e, heard), ops, a, t);
    CleanInverse(ApplyAll(Apply(e, heard), ops).x, listed, now);
  }
}
