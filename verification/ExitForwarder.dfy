/** The exit end: one tunnel on one side, connections to the target on the other. */
module ExitForwarding {
  import opened Messages
  import opened Chain

  /** sent is everything passed to the tunnel's SendMessage, in order. */
  class ExitForwarder {
    var conns: map<ConnID, bool>  // connection -> its write queue has closed itself
    var sent: seq<Message>

    ghost var connected: set<ConnID>
    ghost var reading: set<ConnID>
    ghost var holding: map<ConnID, Bytes>
    ghost var owed: set<ConnID>
    ghost var closed: set<ConnID>
    ghost var taken: map<ConnID, Bytes>
    ghost var queued: map<ConnID, Bytes>

    ghost function State(): End
      reads this
    {
      End(conns, {}, reading, holding, owed, closed, taken, queued)
    }

    constructor ()
      ensures State() == EMPTY_END && connected == {} && sent == []
    {
      conns, sent, connected := map[], [], {};
      reading, holding, owed, closed := {}, map[], {}, {};
      taken, queued := map[], map[];
    }

    /** ok: the circuit breaker allows the dial and the dial succeeds. */
    method HandleConnect(id: ConnID, ok: bool)
      modifies this`conns, this`sent, this`connected, this`reading, this`closed
      ensures connected == old(connected) + {id}
      ensures ok ==> State() == Join(old(State()), id) && sent == old(sent)
      ensures !ok ==> State() == old(State()).(closed := old(closed) + {id}) && sent == old(sent) + [Close(id)]
    {
      connected := connected + {id};
      if !ok {
        sent, closed := sent + [Close(id)], closed + {id};
        return;
      }
      conns := conns[id := false];
      reading := reading + {id};
    }

    /** One round of readFromTarget: Read, then SendMessage. */
    method ForwardChunk(id: ConnID, data: Bytes)
      requires id in reading && id !in holding && |data| <= MAX_PAYLOAD_SIZE
      modifies this`reading, this`holding, this`taken, this`sent
      ensures State() == Release(Take(old(State()), id, data), id)
      ensures sent == old(sent) + [Data(id, data)]
    {
      reading, holding := reading - {id}, holding[id := data];
      taken := taken[id := Get(taken, id) + data];
      sent := sent + [Data(id, data)];
      holding, reading := holding - {id}, reading + {id};
    }

    method CloseTCPConn(id: ConnID)
      modifies this`conns, this`owed, this`closed, this`sent
      ensures id !in old(conns) ==> State() == old(State()) && sent == old(sent)
      ensures id in old(conns) ==> State() == Pay(Detach(old(State()), id), id) && sent == old(sent) + [Close(id)]
    {
      if id in conns {
        conns, owed := conns - {id}, owed + {id};
        sent := sent + [Close(id)];
        owed, closed := owed - {id}, closed + {id};
      }
    }

    /** Data from the tunnel; ok says whether the write queue takes it in time. */
    method HandleData(id: ConnID, data: Bytes, ok: bool)
      modifies this`conns, this`owed, this`closed, this`sent, this`queued
      ensures ok || id !in old(conns) || old(conns[id]) ==> State() == Deliver(old(State()), id, data, ok) && sent == old(sent)
      ensures !ok && id in old(conns) && !old(conns[id]) ==>
        State() == Pay(Deliver(old(State()), id, data, false), id) && sent == old(sent) + [Close(id)]
    {
      if id !in conns || conns[id] {
        return;
      }
      if ok {
        queued := queued[id := Get(queued, id) + data];
      } else {
        CloseTCPConn(id);
      }
    }
  }
}
