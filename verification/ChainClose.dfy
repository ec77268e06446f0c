/**
 * Closing a connection: each end sends at most one Close per id, so each hop
 * carries at most one per direction, and a relay mark never swallows a Close
 * that the other side still needs.
 */
module ChainClose {
  import opened Messages
  import opened Line
  import opened Chain
  import opened ChainLife

  /** Hop k carried c's Close at most as often as the sender sent it, minus what is still on the way there. */
  predicate ClosesOk(h: Half, c: ConnID)
    requires |h.carried| == |h.line| + 1
  {
    forall k :: 0 <= k <= |h.line| ==>
      h.carried[k][c] + Count(h.line, k, Close(c)) <= if c in h.end.closed then 1 else 0
  }

  /** The entry has closed c and the exit has not: the entry's Close is still on its way. */
  predicate EntryCloseComing(s: Chain, c: ConnID)
    requires WellFormed(s)
  {
    c in s.entry.end.closed && (c !in s.connected || c in s.exit.end.conns) ==>
      Count(s.entry.line, |s.entry.line|, Close(c)) > 0
  }

  predicate ExitCloseComing(s: Chain, c: ConnID)
    requires WellFormed(s)
  {
    c in s.exit.end.closed && c in s.entry.end.conns ==>
      Count(s.exit.line, |s.exit.line|, Close(c)) > 0
  }

  /** A relay mark is the trace of a Close that has already gone past the relay. */
  predicate MarkOk(s: Chain, r: nat, c: ConnID)
    requires WellFormed(s) && r < |s.marks|
  {
    c in s.marks[r] ==>
      || (c in s.entry.end.closed && Count(s.entry.line, r + 1, Close(c)) == 0)
      || (c in s.exit.end.closed && Count(s.exit.line, UpHop(s, r) + 1, Close(c)) == 0)
  }

  predicate Closing(s: Chain, c: ConnID)
    requires WellFormed(s)
  {
    && ClosesOk(s.entry, c) && ClosesOk(s.exit, c)
    && EntryCloseComing(s, c) && ExitCloseComing(s, c)
    && forall r: nat :: r < |s.marks| ==> MarkOk(s, r, c)
  }

  // ---- Halves ----

  lemma PostCloses(h: Half, m: Message, e: End, c: ConnID)
    requires |h.carried| == |h.line| + 1 && h.line != [] && ClosesOk(h, c)
    requires m == Close(c) ==> c !in h.end.closed && c in e.closed
    requires c in h.end.closed ==> c in e.closed
    ensures ClosesOk(Post(h, m).(end := e), c)
    ensures Count(Post(h, m).line, |h.line|, Close(c))
         == Count(h.line, |h.line|, Close(c)) + if m == Close(c) then 1 else 0
  {
    var h' := Post(h, m).(end := e);
    SendCount(h.line, m, |h.line|, Close(c));
    forall k | 0 <= k <= |h.line|
      ensures h'.carried[k][c] + Count(h'.line, k, Close(c)) <= if c in e.closed then 1 else 0
    {
      SendCount(h.line, m, k, Close(c));
      assert h.carried[k][c] + Count(h.line, k, Close(c)) <= if c in h.end.closed then 1 else 0;
    }
  }

  lemma ForwardCloses(h: Half, i: nat, c: ConnID)
    requires |h.carried| == |h.line| + 1 && i + 1 < |h.line| && h.line[i] != [] && ClosesOk(h, c)
    ensures ClosesOk(Forward(h, i), c)
    ensures Count(Forward(h, i).line, |h.line|, Close(c)) == Count(h.line, |h.line|, Close(c))
  {
    var h' := Forward(h, i);
    PassCount(h.line, i, |h.line|, Close(c));
    forall k | 0 <= k <= |h.line|
      ensures h'.carried[k][c] + Count(h'.line, k, Close(c)) <= if c in h.end.closed then 1 else 0
    {
      PassCount(h.line, i, k, Close(c));
      assert h.carried[k][c] + Count(h.line, k, Close(c)) <= if c in h.end.closed then 1 else 0;
    }
  }

  lemma SwallowCloses(h: Half, i: nat, c: ConnID)
    requires |h.carried| == |h.line| + 1 && i < |h.line| && h.line[i] != [] && ClosesOk(h, c)
    ensures ClosesOk(Swallow(h, i), c)
    ensures h.line[i][0] != Close(c) ==>
      Count(Swallow(h, i).line, |h.line|, Close(c)) == Count(h.line, |h.line|, Close(c))
  {
    var h' := Swallow(h, i);
    PopCount(h.line, i, |h.line|, Close(c));
    forall k | 0 <= k <= |h.line|
      ensures h'.carried[k][c] + Count(h'.line, k, Close(c)) <= if c in h.end.closed then 1 else 0
    {
      PopCount(h.line, i, k, Close(c));
      assert h.carried[k][c] + Count(h.line, k, Close(c)) <= if c in h.end.closed then 1 else 0;
    }
  }

  lemma ArriveCloses(h: Half, c: ConnID)
    requires |h.carried| == |h.line| + 1 && h.line != [] && h.line[|h.line| - 1] != [] && ClosesOk(h, c)
    ensures ClosesOk(Arrive(h), c)
    ensures h.line[|h.line| - 1][0] != Close(c) ==>
      Count(Arrive(h).line, |h.line|, Close(c)) == Count(h.line, |h.line|, Close(c))
  {
    var h', i := Arrive(h), |h.line| - 1;
    PopCount(h.line, i, |h.line|, Close(c));
    forall k | 0 <= k <= |h.line|
      ensures h'.carried[k][c] + Count(h'.line, k, Close(c)) <= if c in h.end.closed then 1 else 0
    {
      PopCount(h.line, i, k, Close(c));
      assert h.carried[k][c] + Count(h.line, k, Close(c)) <= if c in h.end.closed then 1 else 0;
    }
  }

  /** Only the end matters to ClosesOk through its closed set. */
  lemma EndCloses(h: Half, e: End, c: ConnID)
    requires |h.carried| == |h.line| + 1 && ClosesOk(h, c) && (c in h.end.closed ==> c in e.closed)
    ensures ClosesOk(h.(end := e), c)
  {
    forall k | 0 <= k <= |h.line|
      ensures h.carried[k][c] + Count(h.line, k, Close(c)) <= if c in e.closed then 1 else 0
    {
      assert h.carried[k][c] + Count(h.line, k, Close(c)) <= if c in h.end.closed then 1 else 0;
    }
  }

  /** Moving messages towards the receiver never brings a Close back in front of hop k. */
  lemma RelayCount(h: Half, i: nat, marks: set<ConnID>, k: nat, c: ConnID)
    requires |h.carried| == |h.line| + 1 && i + 1 < |h.line| && h.line[i] != [] && k <= |h.line|
    ensures Count(RelayLine(h, i, marks).line, k, Close(c)) <= Count(h.line, k, Close(c))
  {
    PassCount(h.line, i, k, Close(c));
    PopCount(h.line, i, k, Close(c));
  }

  lemma RelayCloses(h: Half, i: nat, marks: set<ConnID>, c: ConnID)
    requires |h.carried| == |h.line| + 1 && i + 1 < |h.line| && h.line[i] != [] && ClosesOk(h, c)
    ensures ClosesOk(RelayLine(h, i, marks), c)
    ensures !(h.line[i][0] == Close(c) && c in marks) ==>
      Count(RelayLine(h, i, marks).line, |h.line|, Close(c)) == Count(h.line, |h.line|, Close(c))
  {
    var m := h.line[i][0];
    if m.Close? && m.id in marks {
      SwallowCloses(h, i, c);
    } else {
      ForwardCloses(h, i, c);
    }
  }

  /** A Close at hop i is the sender's only one: nothing is behind it once it has gone on. */
  lemma OnlyClose(h: Half, i: nat, marks: set<ConnID>, c: ConnID)
    requires |h.carried| == |h.line| + 1 && i + 1 < |h.line| && h.line[i] != [] && ClosesOk(h, c)
    requires h.line[i][0] == Close(c)
    ensures c in h.end.closed && Count(h.line, i + 1, Close(c)) == 1
    ensures Count(RelayLine(h, i, marks).line, i + 1, Close(c)) == 0
  {
    PopCount(h.line, i, i + 1, Close(c));
    PassCount(h.line, i, i + 1, Close(c));
    assert h.carried[i + 1][c] + Count(h.line, i + 1, Close(c)) <= if c in h.end.closed then 1 else 0;
  }

  // ---- Steps ----

  lemma MarksRelayDown(s: Chain, r: nat, c: ConnID)
    requires WellFormed(s) && Enabled(s, RelayDown(r)) && Closing(s, c)
    ensures var s' := Next(s, RelayDown(r)); forall q: nat :: q < |s.marks| ==> MarkOk(s', q, c)
  {
    var s' := Next(s, RelayDown(r));
    forall q: nat | q < |s.marks|
      ensures MarkOk(s', q, c)
    {
      assert MarkOk(s, q, c);
      RelayCount(s.entry, r, s.marks[r], q + 1, c);
      if q == r && s.entry.line[r][0] == Close(c) {
        OnlyClose(s.entry, r, s.marks[r], c);
      }
    }
  }

  lemma ClosingRelayDown(s: Chain, r: nat, c: ConnID)
    requires WellFormed(s) && Enabled(s, RelayDown(r)) && Life(s, c) && Closing(s, c)
    ensures Closing(Next(s, RelayDown(r)), c)
  {
    RelayCloses(s.entry, r, s.marks[r], c);
    MarksRelayDown(s, r, c);
    if s.entry.line[r][0] == Close(c) && c in s.marks[r] {
      OnlyClose(s.entry, r, s.marks[r], c);
      assert MarkOk(s, r, c);
    }
  }

  lemma MarksRelayUp(s: Chain, r: nat, c: ConnID)
    requires WellFormed(s) && Enabled(s, RelayUp(r)) && Closing(s, c)
    ensures var s' := Next(s, RelayUp(r)); forall q: nat :: q < |s.marks| ==> MarkOk(s', q, c)
  {
    var s', i := Next(s, RelayUp(r)), UpHop(s, r);
    forall q: nat | q < |s.marks|
      ensures MarkOk(s', q, c)
    {
      assert MarkOk(s, q, c);
      RelayCount(s.exit, i, s.marks[r], UpHop(s, q) + 1, c);
      if q == r && s.exit.line[i][0] == Close(c) {
        OnlyClose(s.exit, i, s.marks[r], c);
      }
    }
  }

  lemma ClosingRelayUp(s: Chain, r: nat, c: ConnID)
    requires WellFormed(s) && Enabled(s, RelayUp(r)) && Life(s, c) && Closing(s, c)
    ensures Closing(Next(s, RelayUp(r)), c)
  {
    var i := UpHop(s, r);
    RelayCloses(s.exit, i, s.marks[r], c);
    MarksRelayUp(s, r, c);
    if s.exit.line[i][0] == Close(c) && c in s.marks[r] {
      OnlyClose(s.exit, i, s.marks[r], c);
      assert MarkOk(s, r, c);
    }
  }

  /** A step that sends m from the entry and changes the entry's end to e. */
  lemma ClosingPostEntry(s: Chain, m: Message, e: End, c: ConnID)
    requires WellFormed(s) && Closing(s, c)
    requires m == Close(c) ==> c !in s.entry.end.closed && c in e.closed
    requires m != Close(c) ==> (c in s.entry.end.closed <==> c in e.closed)
    requires (c in e.conns ==> c in s.entry.end.conns)
    ensures Closing(s.(entry := Post(s.entry, m).(end := e)), c)
  {
    var s' := s.(entry := Post(s.entry, m).(end := e));
    PostCloses(s.entry, m, e, c);
    forall q: nat | q < |s.marks|
      ensures MarkOk(s', q, c)
    {
      assert MarkOk(s, q, c);
      SendCount(s.entry.line, m, q + 1, Close(c));
    }
  }

  lemma ClosingPostExit(s: Chain, m: Message, x: End, c: ConnID)
    requires WellFormed(s) && Closing(s, c)
    requires m == Close(c) ==> c !in s.exit.end.closed && c in x.closed
    requires m != Close(c) ==> (c in s.exit.end.closed <==> c in x.closed)
    requires (c in x.conns ==> c in s.exit.end.conns)
    ensures Closing(s.(exit := Post(s.exit, m).(end := x)), c)
  {
    var s' := s.(exit := Post(s.exit, m).(end := x));
    PostCloses(s.exit, m, x, c);
    forall q: nat | q < |s.marks|
      ensures MarkOk(s', q, c)
    {
      assert MarkOk(s, q, c);
      SendCount(s.exit.line, m, UpHop(s, q) + 1, Close(c));
    }
  }

  /** A step that changes ends without sending, and adds no closed id. */
  lemma ClosingEnds(s: Chain, e: End, x: End, c: ConnID)
    requires WellFormed(s) && Closing(s, c)
    requires (c in e.closed <==> c in s.entry.end.closed) && (c in x.closed <==> c in s.exit.end.closed)
    requires (c in e.conns && c in x.closed ==> c in s.entry.end.conns)
    requires (c in x.conns && c in e.closed ==> c in s.exit.end.conns || c !in s.connected)
    ensures Closing(s.(entry := s.entry.(end := e), exit := s.exit.(end := x)), c)
  {
    var s' := s.(entry := s.entry.(end := e), exit := s.exit.(end := x));
    EndCloses(s.entry, e, c);
    EndCloses(s.exit, x, c);
    forall q: nat | q < |s.marks|
      ensures MarkOk(s', q, c)
    {
      assert MarkOk(s, q, c);
    }
  }

  lemma ClosingExpire(s: Chain, r: nat, d: ConnID, c: ConnID)
    requires WellFormed(s) && Enabled(s, Expire(r, d)) && Closing(s, c)
    ensures Closing(Next(s, Expire(r, d)), c)
  {
    var s' := Next(s, Expire(r, d));
    forall q: nat | q < |s.marks|
      ensures MarkOk(s', q, c)
    {
      assert MarkOk(s, q, c);
    }
  }

  /** The exit takes a message off the entry's line; only a Close of c can be missed afterwards. */
  lemma ClosingArriveExit(s: Chain, s': Chain, c: ConnID)
    requires WellFormed(s) && Closing(s, c) && s.entry.line[|s.marks|] != []
    requires s' == s.(entry := Arrive(s.entry), connected := s'.connected, exit := s.exit.(end := s'.exit.end))
    requires c in s'.exit.end.closed <==> c in s.exit.end.closed
    requires var m := s.entry.line[|s.marks|][0];
      if m == Close(c) then c in s'.connected && c !in s'.exit.end.conns
      else (c !in s'.connected || c in s'.exit.end.conns ==> c !in s.connected || c in s.exit.end.conns)
    ensures Closing(s', c)
  {
    ArriveCloses(s.entry, c);
    EndCloses(s.exit, s'.exit.end, c);
    forall q: nat | q < |s.marks|
      ensures MarkOk(s', q, c)
    {
      assert MarkOk(s, q, c);
      PopCount(s.entry.line, |s.marks|, q + 1, Close(c));
    }
  }

  lemma ClosingArriveEntry(s: Chain, s': Chain, c: ConnID)
    requires WellFormed(s) && Closing(s, c) && s.exit.line[|s.marks|] != []
    requires s' == s.(exit := Arrive(s.exit), entry := s.entry.(end := s'.entry.end))
    requires c in s'.entry.end.closed <==> c in s.entry.end.closed
    requires c in s'.entry.end.conns ==> c in s.entry.end.conns
    requires s.exit.line[|s.marks|][0] == Close(c) ==> c !in s'.entry.end.conns
    ensures Closing(s', c)
  {
    ArriveCloses(s.exit, c);
    EndCloses(s.entry, s'.entry.end, c);
    forall q: nat | q < |s.marks|
      ensures MarkOk(s', q, c)
    {
      assert MarkOk(s, q, c);
      PopCount(s.exit.line, |s.marks|, UpHop(s, q) + 1, Close(c));
    }
  }

  lemma ClosingDialled(s: Chain, c: ConnID)
    requires WellFormed(s) && Enabled(s, RecvExit(true)) && Life(s, c) && Closing(s, c)
    requires s.entry.line[|s.marks|][0].Connect?
    ensures Closing(Next(s, RecvExit(true)), c)
  {
    OldestAtExit(s, c);
    ClosingArriveExit(s, Next(s, RecvExit(true)), c);
  }

  /** The exit has taken a Connect off its line and has not answered it yet. */
  function Refusing(s: Chain): Chain
    requires WellFormed(s) && s.entry.line[|s.marks|] != []
  {
    s.(entry := Arrive(s.entry), connected := s.connected + {s.entry.line[|s.marks|][0].id})
  }

  lemma ClosingRefusing(s: Chain, c: ConnID)
    requires WellFormed(s) && s.entry.line[|s.marks|] != [] && Life(s, c) && Closing(s, c)
    requires s.entry.line[|s.marks|][0].Connect?
    ensures Closing(Refusing(s), c)
    ensures s.entry.line[|s.marks|][0].id == c ==> c !in s.exit.end.closed
  {
    OldestAtExit(s, c);
    ClosingArriveExit(s, Refusing(s), c);
  }

  /** A failed dial answers the Connect with the exit's only Close of that id. */
  lemma ClosingRefused(s: Chain, c: ConnID)
    requires WellFormed(s) && Enabled(s, RecvExit(false)) && Life(s, c) && Closing(s, c)
    requires s.entry.line[|s.marks|][0].Connect?
    ensures Closing(Next(s, RecvExit(false)), c)
  {
    var d := s.entry.line[|s.marks|][0].id;
    var x := s.exit.end;
    ClosingRefusing(s, c);
    ClosingPostExit(Refusing(s), Close(d), x.(closed := x.closed + {d}), c);
  }

  lemma ClosingDataOrClose(s: Chain, ok: bool, c: ConnID)
    requires WellFormed(s) && Enabled(s, RecvExit(ok)) && Life(s, c) && Closing(s, c)
    requires !s.entry.line[|s.marks|][0].Connect?
    ensures Closing(Next(s, RecvExit(ok)), c)
  {
    OldestAtExit(s, c);
    ClosingArriveExit(s, Next(s, RecvExit(ok)), c);
  }

  lemma ClosingRecvExit(s: Chain, ok: bool, c: ConnID)
    requires WellFormed(s) && Enabled(s, RecvExit(ok)) && Life(s, c) && Closing(s, c)
    ensures Closing(Next(s, RecvExit(ok)), c)
  {
    if s.entry.line[|s.marks|][0].Connect? {
      if ok { ClosingDialled(s, c); } else { ClosingRefused(s, c); }
    } else {
      ClosingDataOrClose(s, ok, c);
    }
  }

  lemma ClosingRecvEntry(s: Chain, ok: bool, c: ConnID)
    requires WellFormed(s) && Enabled(s, RecvEntry(ok)) && Life(s, c) && Closing(s, c)
    ensures Closing(Next(s, RecvEntry(ok)), c)
  {
    ClosingArriveEntry(s, Next(s, RecvEntry(ok)), c);
  }

  lemma ClosingSend(s: Chain, step: Step, c: ConnID)
    requires WellFormed(s) && Enabled(s, step) && Life(s, c) && Closing(s, c)
    requires step.SendConnect? || step.SendData? || step.SendClose?
    ensures Closing(Next(s, step), c)
  {
    var s' := Next(s, step);
    match step
    case SendConnect(d) => ClosingPostEntry(s, Connect(d), s'.entry.end, c);
    case SendData(side, d) =>
      var m := Data(d, HalfOf(s, side).end.holding[d]);
      if side.Entry? {
        ClosingPostEntry(s, m, s'.entry.end, c);
      } else {
        ClosingPostExit(s, m, s'.exit.end, c);
      }
    case SendClose(side, d) =>
      if side.Entry? {
        ClosingPostEntry(s, Close(d), s'.entry.end, c);
      } else {
        ClosingPostExit(s, Close(d), s'.exit.end, c);
      }
  }

  lemma ClosingAccept(s: Chain, c: ConnID)
    requires WellFormed(s) && Enabled(s, Accept) && Life(s, c) && Closing(s, c)
    ensures Closing(Next(s, Accept), c)
  {
    var s' := Next(s, Accept);
    ClosingEnds(s, s'.entry.end, s.exit.end, c);
    forall q: nat | q < |s.marks|
      ensures MarkOk(s', q, c)
    {
      assert MarkOk(s, q, c);
    }
  }

  lemma ClosingLocal(s: Chain, step: Step, c: ConnID)
    requires WellFormed(s) && Enabled(s, step) && Closing(s, c)
    requires step.Read? || step.ReaderEnd? || step.WriterFails?
    ensures Closing(Next(s, step), c)
  {
    var s' := Next(s, step);
    ClosingEnds(s, s'.entry.end, s'.exit.end, c);
  }

  lemma ClosingStep(s: Chain, step: Step, c: ConnID)
    requires WellFormed(s) && Enabled(s, step) && Life(s, c) && Closing(s, c)
    ensures Closing(Next(s, step), c)
  {
    match step
    case Accept => ClosingAccept(s, c);
    case SendConnect(d) => ClosingSend(s, step, c);
    case Read(side, d, data) => ClosingLocal(s, step, c);
    case SendData(side, d) => ClosingSend(s, step, c);
    case ReaderEnd(side, d) => ClosingLocal(s, step, c);
    case SendClose(side, d) => ClosingSend(s, step, c);
    case WriterFails(side, d) => ClosingLocal(s, step, c);
    case RelayDown(r) => ClosingRelayDown(s, r, c);
    case RelayUp(r) => ClosingRelayUp(s, r, c);
    case Expire(r, d) => ClosingExpire(s, r, d, c);
    case RecvExit(ok) => ClosingRecvExit(s, ok, c);
    case RecvEntry(ok) => ClosingRecvEntry(s, ok, c);
  }
}
