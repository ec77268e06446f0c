/** A relay between two tunnels: it remembers closed ids so that a Close is not sent round in circles. */
module RelayForwarding {
  import opened Messages
  import opened Line
  import opened Chain

  const CLOSED_ENTRY_TTL: int := 300_000_000_000  // closedEntryTTL, in nanoseconds

  /** What a relay passes on for a message that arrives on one of its sides. */
  function Emitted(m: Message, marks: set<ConnID>): seq<Message> {
    if m.Close? && m.id in marks then [] else [m]
  }

  /** A relay step of the chain is exactly this: take one message, emit that, keep those marks. */
  lemma RelayStepEmits(h: Half, i: nat, marks: set<ConnID>)
    requires i + 1 < |h.line| && i + 1 < |h.carried| && h.line[i] != []
    ensures var after := RelayLine(h, i, marks).line;
      && after[i] == h.line[i][1..] && after[i + 1] == h.line[i + 1] + Emitted(h.line[i][0], marks)
      && |after| == |h.line| && forall j :: 0 <= j < |after| && j != i && j != i + 1 ==> after[j] == h.line[j]
  {
    assert h.line[i + 1] + [] == h.line[i + 1];
  }

  class RelayForwarder {
    var closed: map<ConnID, int>  // id -> time it was marked
    var inbound: seq<Message>     // sent towards the entry
    var outbound: seq<Message>    // sent towards the exit

    constructor ()
      ensures closed == map[] && inbound == [] && outbound == []
    {
      closed, inbound, outbound := map[], [], [];
    }

    method HandleClose(id: ConnID, now: int)
      modifies this`closed, this`outbound
      ensures outbound == old(outbound) + Emitted(Close(id), old(closed.Keys))
      ensures closed == if id in old(closed) then old(closed) else old(closed)[id := now]
    {
      if id in closed {
        return;
      }
      closed := closed[id := now];
      outbound := outbound + [Close(id)];
    }

    method HandleOutboundClose(id: ConnID, now: int)
      modifies this`closed, this`inbound
      ensures inbound == old(inbound) + Emitted(Close(id), old(closed.Keys))
      ensures closed == if id in old(closed) then old(closed) else old(closed)[id := now]
    {
      if id in closed {
        return;
      }
      closed := closed[id := now];
      inbound := inbound + [Close(id)];
    }

    /** The dispatch of a message from the previous hop. */
    method HandleInbound(m: Message, now: int)
      modifies this`closed, this`outbound
      ensures outbound == old(outbound) + Emitted(m, old(closed.Keys))
      ensures closed.Keys == RelayMarks(m, old(closed.Keys))
    {
      match m
      case Connect(id) => outbound := outbound + [Connect(id)];
      case Data(id, data) => outbound := outbound + [Data(id, data)];
      case Close(id) => HandleClose(id, now);
    }

    /** The dispatch of a message from the next hop, which never sends Connect. */
    method HandleOutbound(m: Message, now: int)
      requires !m.Connect?
      modifies this`closed, this`inbound
      ensures inbound == old(inbound) + Emitted(m, old(closed.Keys))
      ensures closed.Keys == RelayMarks(m, old(closed.Keys))
    {
      match m
      case Data(id, data) => inbound := inbound + [Data(id, data)];
      case Close(id) => HandleOutboundClose(id, now);
    }

    /** Forgets the marks older than the time-to-live, and only those. */
    method CleanupClosedEntries(now: int)
      modifies this`closed
      ensures closed == old(closed) - (set id | id in old(closed) && now - old(closed)[id] > CLOSED_ENTRY_TTL)
    {
      var rest := closed.Keys;
      while rest != {}
        invariant rest <= old(closed).Keys
        invariant closed == old(closed) - (set id | id in old(closed) && id !in rest && now - old(closed)[id] > CLOSED_ENTRY_TTL)
        decreases |rest|
      {
        var id :| id in rest;
        if now - closed[id] > CLOSED_ENTRY_TTL {
          closed := closed - {id};
        }
        rest := rest - {id};
      }
    }
  }

  /** Forgetting a set of marks is a run of single expiries, whatever their order. */
  lemma {:induction false} CleanupIsExpiries(s: Chain, r: nat, ids: set<ConnID>) returns (run: seq<Step>)
    requires WellFormed(s) && r < |s.marks|
    ensures |run| == |ids| && (forall i :: 0 <= i < |run| ==> run[i].Expire? && run[i].c in ids)
    ensures Valid(s, run) && After(s, run) == s.(marks := s.marks[r := s.marks[r] - ids])
    decreases |ids|
  {
    if ids == {} {
      run := [];
      assert s.marks[r] - ids == s.marks[r];
      assert s.marks[r := s.marks[r] - ids] == s.marks;
    } else {
      var c :| c in ids;
      var next := Next(s, Expire(r, c));
      var rest := CleanupIsExpiries(next, r, ids - {c});
      run := [Expire(r, c)] + rest;
      assert run[1..] == rest;
      assert s.marks[r] - {c} - (ids - {c}) == s.marks[r] - ids;
      assert s.marks[r := s.marks[r] - {c}][r := s.marks[r] - ids] == s.marks[r := s.marks[r] - ids];
    }
  }
}
