/** The entry end: local clients on one side, one or more tunnels on the other. */
module EntryForwarding {
  import opened Messages
  import opened Chain
  import opened UdpIndex

  /** TCP and UDP ids come from one counter: none is shared, none is ahead of the counter. */
  predicate IDsOk(tcp: set<ConnID>, udp: Index, last: nat) {
    (forall c :: c in tcp ==> 1 <= c <= last && c !in udp.ids) && Inverse(udp) && Issued(udp, last)
  }

  /** Every TCP connection has a tunnel, and it is one of the tunnels that there are. */
  predicate Routed(connTunnel: map<ConnID, nat>, tunnels: nat) {
    tunnels > 0 && forall c :: c in connTunnel ==> connTunnel[c] < tunnels
  }

  /**
   * Only what the critical sections touch. A SendMessage on tunnel t appends to
   * sent[t]. The ghost fields say where each connection's goroutine stands.
   */
  class EntryForwarder {
    var conns: map<ConnID, bool>       // connection -> its write queue has closed itself
    var connTunnel: map<ConnID, nat>
    var udpClients: map<Addr, Client>
    var udpConnIDs: map<ConnID, Addr>
    var nextConnID: nat
    var sent: seq<seq<Message>>
    var udpClosed: seq<(nat, ConnID)>  // UDP Close messages: tunnel and flagged id

    ghost var dialing: set<ConnID>
    ghost var reading: set<ConnID>
    ghost var holding: map<ConnID, Bytes>
    ghost var owed: set<ConnID>
    ghost var closed: set<ConnID>
    ghost var taken: map<ConnID, Bytes>
    ghost var queued: map<ConnID, Bytes>

    ghost function State(): End
      reads this
    {
      End(conns, dialing, reading, holding, owed, closed, taken, queued)
    }

    ghost function Udp(): Index
      reads this`udpClients, this`udpConnIDs
    {
      Index(udpClients, udpConnIDs)
    }

    ghost predicate Valid()
      reads this`conns, this`connTunnel, this`udpClients, this`udpConnIDs, this`nextConnID, this`sent
    {
      IDsOk(conns.Keys, Udp(), nextConnID) && connTunnel.Keys == conns.Keys && Routed(connTunnel, |sent|)
    }

    constructor (tunnels: nat)
      requires tunnels > 0
      ensures Valid() && State() == EMPTY_END && Udp() == Index(map[], map[])
      ensures nextConnID == 0 && sent == seq(tunnels, _ => []) && udpClosed == []
    {
      conns, connTunnel, udpClients, udpConnIDs := map[], map[], map[], map[];
      nextConnID, sent, udpClosed := 0, seq(tunnels, _ => []), [];
      dialing, reading, holding, owed, closed := {}, {}, map[], {}, {};
      taken, queued := map[], map[];
    }

    method SendMessage(t: nat, m: Message)
      requires t < |sent|
      modifies this`sent
      ensures sent == old(sent)[t := old(sent)[t] + [m]] && (old(Valid()) ==> Valid())
    {
      sent := sent[t := sent[t] + [m]];
    }

    // ---- TCP ----

    /** handleTCPConn up to the registration. */
    method Accept(tunnelIdx: nat) returns (id: ConnID)
      requires Valid() && nextConnID + 1 < UDP_FLAG && tunnelIdx < |sent|
      modifies this
      ensures Valid() && id == nextConnID == old(nextConnID) + 1
      ensures State() == Register(old(State()), id) && connTunnel == old(connTunnel)[id := tunnelIdx]
      ensures Udp() == old(Udp()) && sent == old(sent) && udpClosed == old(udpClosed)
      ensures id !in old(conns) && id !in udpConnIDs
    {
      nextConnID := nextConnID + 1;
      id := nextConnID;
      conns := conns[id := false];
      connTunnel := connTunnel[id := tunnelIdx];
      dialing := dialing + {id};
    }

    /** The goroutine of handleTCPConn passes one chunk on: Read, then SendMessage. */
    method ForwardChunk(id: ConnID, data: Bytes, tunnelIdx: nat)
      requires Valid() && id in reading && id !in holding && |data| <= MAX_PAYLOAD_SIZE && tunnelIdx < |sent|
      modifies this`reading, this`holding, this`taken, this`sent
      ensures Valid() && State() == Release(Take(old(State()), id, data), id)
      ensures sent == old(sent)[tunnelIdx := old(sent)[tunnelIdx] + [Data(id, data)]]
    {
      reading, holding, taken := reading - {id}, holding[id := data], taken[id := Get(taken, id) + data];
      SendMessage(tunnelIdx, Data(id, data));
      holding, reading := holding - {id}, reading + {id};
    }

    /** Deletes under the lock, then sends Close through the connection's own tunnel. */
    method CloseTCPConn(id: ConnID)
      requires Valid()
      modifies this`conns, this`connTunnel, this`owed, this`closed, this`sent
      ensures Valid()
      ensures id !in old(conns) ==> State() == old(State()) && sent == old(sent) && connTunnel == old(connTunnel)
      ensures id in old(conns) ==>
        && State() == Pay(Detach(old(State()), id), id)
        && connTunnel == old(connTunnel) - {id}
        && var t := old(connTunnel[id]);
           sent == old(sent)[t := old(sent)[t] + [Close(id)]]
    {
      if id in conns {
        var t := TunnelFor(connTunnel[id], |sent|);
        assert t == connTunnel[id] && (conns - {id}).Keys == conns.Keys - {id};
        conns, connTunnel := conns - {id}, connTunnel - {id};
        owed := owed + {id};
        SendMessage(t, Close(id));
        owed, closed := owed - {id}, closed + {id};
      }
    }

    /** Data from the tunnel; ok says whether the write queue takes it in time. */
    method HandleData(id: ConnID, data: Bytes, ok: bool)
      requires Valid()
      modifies this`conns, this`connTunnel, this`owed, this`closed, this`sent, this`queued
      ensures Valid()
      ensures ok || id !in old(conns) || old(conns[id]) ==> State() == Deliver(old(State()), id, data, ok) && sent == old(sent)
      ensures !ok && id in old(conns) && !old(conns[id]) ==>
        && State() == Pay(Deliver(old(State()), id, data, false), id)
        && var t := old(connTunnel[id]);
           sent == old(sent)[t := old(sent)[t] + [Close(id)]]
    {
      if id !in conns || conns[id] {
        return;
      }
      if ok {
        queued := queued[id := Get(queued, id) + data];
      } else {
        CloseTCPConn(id);
      }
    }

    // ---- UDP ----

    /** Looks the client up, or gives it a fresh id and the tunnel chosen for it. */
    method GetOrCreateUDPConnID(addr: Addr, chosen: nat, now: int) returns (id: ConnID, tunnelIdx: int)
      requires Valid() && nextConnID + 1 < UDP_FLAG
      modifies this`udpClients, this`udpConnIDs, this`nextConnID
      ensures Valid() && addr in udpClients && udpClients[addr] == Client(id, tunnelIdx, now)
      ensures forall a :: a != addr ==> (a in udpClients <==> a in old(udpClients)) && (a in udpClients ==> udpClients[a] == old(udpClients)[a])
      ensures addr in old(udpClients) ==>
        && Udp() == Touch(old(Udp()), addr, now) && nextConnID == old(nextConnID)
        && id == old(udpClients)[addr].connID && tunnelIdx == old(udpClients)[addr].tunnelIdx
      ensures addr !in old(udpClients) ==>
        && tunnelIdx == chosen && udpConnIDs == old(udpConnIDs)[id := addr]
        && Udp() == Create(old(Udp()), addr, id, chosen, now) && id == nextConnID == old(nextConnID) + 1
        && id !in old(udpConnIDs) && id !in conns
    {
      if addr in udpClients {
        TouchInverse(Udp(), addr, now);
        udpClients := udpClients[addr := udpClients[addr].(lastActive := now)];
        return udpClients[addr].connID, udpClients[addr].tunnelIdx;
      }
      id := CreateUDPConnID(addr, chosen, now);
      tunnelIdx := chosen;
    }

    method CreateUDPConnID(addr: Addr, chosen: nat, now: int) returns (id: ConnID)
      requires Valid() && nextConnID + 1 < UDP_FLAG && addr !in udpClients
      modifies this`udpClients, this`udpConnIDs, this`nextConnID
      ensures Valid() && Udp() == Create(old(Udp()), addr, id, chosen, now) && id == nextConnID == old(nextConnID) + 1
      ensures id !in old(udpConnIDs) && id !in conns
    {
      CreateInverse(Udp(), addr, nextConnID + 1, chosen, now, nextConnID);
      nextConnID := nextConnID + 1;
      id := nextConnID;
      udpClients := udpClients[addr := Client(id, chosen, now)];
      udpConnIDs := udpConnIDs[id := addr];
    }

    /** A reply for a UDP client: scans the clients for the one with this id and marks it active. */
    method HandleUDPData(id: ConnID, now: int) returns (addr: Addr, known: bool)
      requires Valid()
      modifies this`udpClients
      ensures Valid() && (known <==> id in udpConnIDs)
      ensures known ==> addr == udpConnIDs[id] && Udp() == Touch(old(Udp()), addr, now)
      ensures known ==> addr in old(udpClients) && udpClients == old(udpClients)[addr := old(udpClients)[addr].(lastActive := now)]
      ensures !known ==> Udp() == old(Udp())
    {
      addr, known := "", id in udpConnIDs;
      if !known {
        return;
      }
      addr := udpConnIDs[id];
      var rest := udpClients.Keys;
      while rest != {}
        invariant addr in rest && rest <= udpClients.Keys && udpClients == old(udpClients)
        decreases |rest|
      {
        var key :| key in rest;
        if udpClients[key].connID == id {
          TouchInverse(Udp(), key, now);
          udpClients := udpClients[key := udpClients[key].(lastActive := now)];
          return;
        }
        rest := rest - {key};
      }
    }

    method CloseUDPConn(id: ConnID)
      requires Valid()
      modifies this`udpClients, this`udpConnIDs
      ensures Valid() && Udp() == CloseID(old(Udp()), id)
    {
      CloseEvictsOnlyItsClient(Udp(), id);
      if id in udpConnIDs {
        udpClients := udpClients - {udpConnIDs[id]};
        udpConnIDs := udpConnIDs - {id};
      }
    }

    /** First pass of the idle clean-up, under the read lock. */
    method CollectIdle(now: int) returns (toRemove: seq<Addr>)
      requires Valid()
      ensures forall a :: a in toRemove <==> Idle(Udp(), a, now)
      ensures forall i, j :: 0 <= i < j < |toRemove| ==> toRemove[i] != toRemove[j]
    {
      toRemove := [];
      var rest := udpClients.Keys;
      while rest != {}
        invariant rest <= udpClients.Keys
        invariant forall a :: a in toRemove <==> Idle(Udp(), a, now) && a !in rest
        invariant forall i, j :: 0 <= i < j < |toRemove| ==> toRemove[i] != toRemove[j]
        decreases |rest|
      {
        var key :| key in rest;
        rest := rest - {key};
        if now - udpClients[key].lastActive > IDLE_TIMEOUT {
          toRemove := toRemove + [key];
        }
      }
    }

    method RemoveIfIdle(key: Addr, now: int)
      requires Valid()
      modifies this`udpClients, this`udpConnIDs, this`udpClosed
      ensures Valid()
      ensures Udp() == if old(Idle(Udp(), key, now)) then CloseID(old(Udp()), old(udpClients[key].connID)) else old(Udp())
      ensures udpClosed == old(udpClosed) + CloseMessage(old(Udp()), key, now, |sent|)
      ensures old(Idle(Udp(), key, now)) && 0 <= old(udpClients[key].tunnelIdx) < |sent| ==>
        udpClosed == old(udpClosed) + [(old(udpClients[key].tunnelIdx), old(udpClients[key].connID))]
    {
      if key in udpClients && now - udpClients[key].lastActive > IDLE_TIMEOUT {
        var client := udpClients[key];
        CloseEvictsOnlyItsClient(Udp(), client.connID);
        udpClients, udpConnIDs := udpClients - {key}, udpConnIDs - {client.connID};
        udpClosed := udpClosed + [(TunnelFor(client.tunnelIdx, |sent|), client.connID)];
      }
    }

    /**
     * Second pass, under the write lock: whatever happened in between, only
     * clients that are still idle go, and each gets one Close on its own tunnel.
     */
    method RemoveIdle(toRemove: seq<Addr>, now: int)
      requires Valid()
      requires forall i, j :: 0 <= i < j < |toRemove| ==> toRemove[i] != toRemove[j]
      modifies this`udpClients, this`udpConnIDs, this`udpClosed
      ensures Valid() && Udp() == Clean(old(Udp()), toRemove, now)
      ensures udpClosed == old(udpClosed) + CloseMessages(old(Udp()), toRemove, now, |sent|)
    {
      ghost var start := Udp();
      CleanNothing(start, now);
      for i := 0 to |toRemove|
        invariant Udp() == Clean(start, toRemove[..i], now) && Valid()
        invariant udpClosed == old(udpClosed) + CloseMessages(start, toRemove[..i], now, |sent|)
      {
        CleanNext(start, toRemove, i, now, |sent|);
        RemoveIfIdle(toRemove[i], now);
      }
      assert toRemove[..|toRemove|] == toRemove;
    }
  }
}
