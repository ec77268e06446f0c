/**
 * A line of FIFO queues from one end of a tunnel chain to the other: hop 0 is
 * filled by the sending end, the last hop is emptied by the receiving end, and
 * the relay between hops i and i+1 moves messages along.
 */
module Line {
  import opened Messages

  type Queue = seq<Message>

  type Hops = seq<Queue>

  function Send(line: Hops, m: Message): Hops
    requires line != []
  {
    line[0 := line[0] + [m]]
  }

  /** Takes the oldest message off hop i. */
  function Pop(line: Hops, i: nat): Hops
    requires i < |line| && line[i] != []
  {
    line[i := line[i][1..]]
  }

  /** A relay passes the oldest message of hop i on to hop i+1. */
  function Pass(line: Hops, i: nat): Hops
    requires i + 1 < |line| && line[i] != []
  {
    line[i := line[i][1..]][i + 1 := line[i + 1] + [line[i][0]]]
  }

  /** The messages of connection c on the whole line, oldest (nearest the receiver) first. */
  function Flow(line: Hops, c: ConnID): seq<Message> {
    if line == [] then [] else Flow(line[1..], c) + Of(line[0], c)
  }

  lemma SendFlow(line: Hops, m: Message, c: ConnID)
    requires line != []
    ensures m.id == c ==> Flow(Send(line, m), c) == Flow(line, c) + [m]
    ensures m.id != c ==> Flow(Send(line, m), c) == Flow(line, c)
  {
    OfConcat(line[0], [m], c);
    OfOne(m, c);
    assert Send(line, m)[1..] == line[1..];
  }

  lemma OfOne(m: Message, c: ConnID)
    ensures Of([m], c) == if m.id == c then [m] else []
  {
    assert Of([m], c) == (if m.id == c then [m] else []) + Of([], c);
  }

  lemma OfHead(q: Queue, c: ConnID)
    requires q != []
    ensures q[0].id == c ==> Of(q, c) == [q[0]] + Of(q[1..], c)
    ensures q[0].id != c ==> Of(q, c) == Of(q[1..], c)
  {
  }

  lemma {:induction false} PassFlow(line: Hops, i: nat, c: ConnID)
    requires i + 1 < |line| && line[i] != []
    ensures Flow(Pass(line, i), c) == Flow(line, c)
  {
    var m := line[i][0];
    if i == 0 {
      OfHead(line[0], c);
      assert Pass(line, 0)[1..] == Send(line[1..], m);
      SendFlow(line[1..], m, c);
    } else {
      assert Pass(line, i)[1..] == Pass(line[1..], i - 1);
      PassFlow(line[1..], i - 1, c);
    }
  }

  /** Popping takes one message out of the flow. */
  lemma {:induction false} PopFlow(line: Hops, i: nat, c: ConnID) returns (before: seq<Message>, after: seq<Message>)
    requires i < |line| && line[i] != []
    ensures line[i][0].id == c ==> Flow(line, c) == before + [line[i][0]] + after && Flow(Pop(line, i), c) == before + after
    ensures line[i][0].id != c ==> Flow(Pop(line, i), c) == Flow(line, c)
  {
    var m := line[i][0];
    if i == 0 {
      OfHead(line[0], c);
      assert Pop(line, 0)[1..] == line[1..];
      before, after := Flow(line[1..], c), Of(line[0][1..], c);
    } else {
      assert Pop(line, i)[1..] == Pop(line[1..], i - 1);
      var b, a := PopFlow(line[1..], i - 1, c);
      before, after := b, a + Of(line[0], c);
    }
  }

  /** Popping the last hop takes the oldest message of the flow. */
  lemma {:induction false} OldestFlow(line: Hops, c: ConnID)
    requires line != [] && line[|line| - 1] != []
    ensures var m := line[|line| - 1][0];
      && (m.id == c ==> Flow(line, c) == [m] + Flow(Pop(line, |line| - 1), c))
      && (m.id != c ==> Flow(line, c) == Flow(Pop(line, |line| - 1), c))
  {
    var i := |line| - 1;
    if i == 0 {
      OfHead(line[0], c);
      assert Pop(line, 0)[1..] == line[1..];
    } else {
      assert Pop(line, i)[1..] == Pop(line[1..], i - 1);
      OldestFlow(line[1..], c);
    }
  }

  lemma {:induction false} EmptyFlow(line: Hops, c: ConnID)
    requires forall i :: 0 <= i < |line| ==> line[i] == []
    ensures Flow(line, c) == []
  {
    if line != [] {
      EmptyFlow(line[1..], c);
    }
  }

  /** How often m occurs on the first k hops. */
  function Count(line: Hops, k: nat, m: Message): nat
    requires k <= |line|
  {
    if k == 0 then 0 else Count(line, k - 1, m) + multiset(line[k - 1])[m]
  }

  lemma {:induction false} SendCount(line: Hops, m: Message, k: nat, x: Message)
    requires line != [] && k <= |line|
    ensures Count(Send(line, m), k, x) == Count(line, k, x) + if k > 0 && m == x then 1 else 0
  {
    if k > 0 {
      SendCount(line, m, k - 1, x);
    }
  }

  lemma {:induction false} PopCount(line: Hops, i: nat, k: nat, x: Message)
    requires i < |line| && line[i] != [] && k <= |line|
    ensures Count(line, k, x) == Count(Pop(line, i), k, x) + if i < k && line[i][0] == x then 1 else 0
  {
    if k > 0 {
      PopCount(line, i, k - 1, x);
      if i == k - 1 {
        assert line[i] == [line[i][0]] + line[i][1..];
      }
    }
  }

  lemma {:induction false} PassCount(line: Hops, i: nat, k: nat, x: Message)
    requires i + 1 < |line| && line[i] != [] && k <= |line|
    ensures Count(line, k, x) == Count(Pass(line, i), k, x) + if i == k - 1 && line[i][0] == x then 1 else 0
  {
    if k > 0 {
      PassCount(line, i, k - 1, x);
      if i == k - 1 || i + 1 == k - 1 {
        assert line[i] == [line[i][0]] + line[i][1..];
      }
    }
  }

  lemma {:induction false} EmptyCount(line: Hops, k: nat, x: Message)
    requires k <= |line|
    requires forall i :: 0 <= i < |line| ==> line[i] == []
    ensures Count(line, k, x) == 0
  {
    if k > 0 {
      EmptyCount(line, k - 1, x);
    }
  }
}
