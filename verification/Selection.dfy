/**
 * Choosing a tunnel for a new connection: by priority (highest weight first,
 * zero weight as backup) or at random in proportion to the weights, among the
 * healthy tunnels while there are any.
 */
module Selection {
  import opened Arith
  import opened Health

  type Weight = w: nat | w < 0x1_0000

  const WORD32: nat := 0x1_0000_0000

  datatype Strategy = Failover | Weighted

  // ---- Candidates ----

  function Upto(n: nat): seq<nat> {
    seq(n, i requires 0 <= i < n => i)
  }

  /** The indices that exist, in the order given. */
  function InRange(indices: seq<int>, n: nat): (c: seq<nat>)
    ensures |c| <= |indices|
    ensures forall j :: 0 <= j < |c| ==> c[j] < n && c[j] in indices
    ensures forall i :: i in indices && 0 <= i < n ==> i in c
  {
    if indices == [] then []
    else
      var i := indices[|indices| - 1];
      InRange(indices[..|indices| - 1], n) + if 0 <= i < n then [i] else []
  }

  predicate Exist(w: seq<Weight>, c: seq<nat>) {
    forall j :: 0 <= j < |c| ==> c[j] < |w|
  }

  function Candidates(w: seq<Weight>, indices: Option<seq<int>>): (c: seq<nat>)
    ensures Exist(w, c)
  {
    if indices.None? then Upto(|w|) else InRange(indices.value, |w|)
  }

  // ---- Priority ----

  /** The candidate that wins by weight, an earlier one winning ties. */
  function Best(w: seq<Weight>, c: seq<nat>): (b: nat)
    requires c != [] && Exist(w, c)
    ensures b in c && b < |w|
  {
    var last := c[|c| - 1];
    if |c| == 1 then last
    else
      var b := Best(w, c[..|c| - 1]);
      if w[last] > w[b] then last else b
  }

  /** Best is the first candidate of maximum weight; a zero weight wins only if all are zero. */
  lemma {:induction false} BestIsFirstMaximum(w: seq<Weight>, c: seq<nat>) returns (p: nat)
    requires c != [] && Exist(w, c)
    ensures p < |c| && c[p] == Best(w, c)
    ensures forall q :: 0 <= q < |c| ==> w[c[q]] <= w[c[p]]
    ensures forall q :: 0 <= q < p ==> w[c[q]] < w[c[p]]
  {
    if |c| == 1 {
      p := 0;
    } else {
      var init := c[..|c| - 1];
      p := BestIsFirstMaximum(w, init);
      if w[c[|c| - 1]] > w[Best(w, init)] {
        p := |c| - 1;
      }
    }
  }

  /** The scan's three variables after the candidates c: the best non-zero one, or else the first zero one. */
  predicate Scanned(w: seq<Weight>, c: seq<nat>, bestIdx: int, bestWeight: nat, backupIdx: int) {
    && Exist(w, c)
    && (c == [] ==> bestIdx == -1 && backupIdx == -1)
    && (c != [] && w[Best(w, c)] > 0 ==> bestIdx == Best(w, c) && bestWeight == w[Best(w, c)])
    && (c != [] && w[Best(w, c)] == 0 ==> bestIdx == -1 && backupIdx == Best(w, c))
  }

  lemma BestSnoc(w: seq<Weight>, c: seq<nat>, i: nat)
    requires Exist(w, c) && i < |w|
    ensures Exist(w, c + [i])
    ensures Best(w, c + [i]) == if c == [] || w[i] > w[Best(w, c)] then i else Best(w, c)
  {
    assert (c + [i])[..|c|] == c;
  }

  /** One round of the scan. */
  method Scan(w: seq<Weight>, ghost c: seq<nat>, i: nat, best: int, weight: nat, backup: int)
    returns (bestIdx: int, bestWeight: nat, backupIdx: int)
    requires i < |w| && Scanned(w, c, best, weight, backup)
    ensures Scanned(w, c + [i], bestIdx, bestWeight, backupIdx)
  {
    bestIdx, bestWeight, backupIdx := best, weight, backup;
    BestSnoc(w, c, i);
    if w[i] == 0 {
      if backupIdx == -1 {
        backupIdx := i;
      }
      return;
    }
    if bestIdx == -1 || w[i] > bestWeight {
      bestIdx, bestWeight := i, w[i];
    }
  }

  method ScanAll(w: seq<Weight>) returns (bestIdx: int, backupIdx: int)
    ensures exists weight :: Scanned(w, Upto(|w|), bestIdx, weight, backupIdx)
  {
    bestIdx, backupIdx := -1, -1;
    var bestWeight := 0;
    for i := 0 to |w|
      invariant Scanned(w, Upto(i), bestIdx, bestWeight, backupIdx)
    {
      assert Upto(i + 1) == Upto(i) + [i];
      bestIdx, bestWeight, backupIdx := Scan(w, Upto(i), i, bestIdx, bestWeight, backupIdx);
    }
  }

  lemma InRangeSnoc(list: seq<int>, j: nat, n: nat)
    requires j < |list|
    ensures 0 <= list[j] < n ==> InRange(list[..j + 1], n) == InRange(list[..j], n) + [list[j]]
    ensures !(0 <= list[j] < n) ==> InRange(list[..j + 1], n) == InRange(list[..j], n)
  {
    assert list[..j + 1][..j] == list[..j];
  }

  /** c lists the entries of list that exist, in their order: at[j] is the place of the j-th. */
  predicate PlacedAt(list: seq<int>, n: nat, at: seq<nat>, c: seq<nat>) {
    && |at| == |c| && (forall j :: 0 <= j < |at| ==> at[j] < |list| && list[at[j]] == c[j])
    && (forall j, k :: 0 <= j < k < |at| ==> at[j] < at[k])
    && (forall q :: 0 <= q < |list| && 0 <= list[q] < n ==> q in at)
  }

  lemma OneMorePlace(list: seq<int>, x: int, n: nat, at: seq<nat>, c: seq<nat>)
    requires PlacedAt(list, n, at, c)
    ensures 0 <= x < n ==> PlacedAt(list + [x], n, at + [|list|], c + [x])
    ensures !(0 <= x < n) ==> PlacedAt(list + [x], n, at, c)
  {
    forall q | 0 <= q < |list + [x]| && 0 <= (list + [x])[q] < n
      ensures q in at + [|list|]
    {
      assert q < |list| ==> q in at;
    }
  }

  lemma {:induction false} InRangeInOrder(list: seq<int>, n: nat) returns (at: seq<nat>)
    ensures PlacedAt(list, n, at, InRange(list, n))
  {
    if list == [] {
      at := [];
    } else {
      var init, x := list[..|list| - 1], list[|list| - 1];
      at := InRangeInOrder(init, n);
      OneMorePlace(init, x, n, at, InRange(init, n));
      assert init + [x] == list;
      if 0 <= x < n {
        at := at + [|init|];
        assert InRange(list, n) == InRange(init, n) + [x];
      } else {
        assert InRange(list, n) == InRange(init, n);
      }
    }
  }

  /** What wins by weight: at place p of the list, heavier than all before it, at least as heavy as all behind it. */
  predicate Heaviest(w: seq<Weight>, list: seq<int>, p: nat) {
    && p < |list| && 0 <= list[p] < |w|
    && (forall q :: 0 <= q < |list| && 0 <= list[q] < |w| ==> w[list[q]] <= w[list[p]])
    && (forall q :: 0 <= q < p && 0 <= list[q] < |w| ==> w[list[q]] < w[list[p]])
  }

  lemma BestIsHeaviest(w: seq<Weight>, list: seq<int>) returns (p: nat)
    requires InRange(list, |w|) != []
    ensures Heaviest(w, list, p) && list[p] == Best(w, InRange(list, |w|))
  {
    var c := InRange(list, |w|);
    var at := InRangeInOrder(list, |w|);
    var j := BestIsFirstMaximum(w, c);
    p := at[j];
    forall q | 0 <= q < |list| && 0 <= list[q] < |w|
      ensures w[list[q]] <= w[list[p]] && (q < p ==> w[list[q]] < w[list[p]])
    {
      var k :| 0 <= k < |at| && at[k] == q;
      assert w[c[k]] <= w[c[j]];
    }
  }

  predicate SomeInRange(list: seq<int>, n: nat) {
    exists q :: 0 <= q < |list| && 0 <= list[q] < n
  }

  lemma BestOfListed(w: seq<Weight>, list: seq<int>)
    ensures SomeInRange(list, |w|) <==> InRange(list, |w|) != []
    ensures SomeInRange(list, |w|) ==> exists p: nat :: Heaviest(w, list, p) && list[p] == Best(w, InRange(list, |w|))
  {
    var at := InRangeInOrder(list, |w|);
    if InRange(list, |w|) != [] {
      assert list[at[0]] == InRange(list, |w|)[0];
      var p := BestIsHeaviest(w, list);
    }
  }

  lemma BestOfAll(w: seq<Weight>)
    requires w != []
    ensures var b := Best(w, Upto(|w|)); (forall i :: 0 <= i < |w| ==> w[i] <= w[b]) && (forall i :: 0 <= i < b ==> w[i] < w[b])
  {
    var c := Upto(|w|);
    var p := BestIsFirstMaximum(w, c);
    forall i | 0 <= i < |w|
      ensures w[i] <= w[c[p]] && (i < c[p] ==> w[i] < w[c[p]])
    {
      assert c[i] == i;
    }
  }

  method ScanListed(w: seq<Weight>, list: seq<int>) returns (bestIdx: int, backupIdx: int)
    ensures exists weight :: Scanned(w, InRange(list, |w|), bestIdx, weight, backupIdx)
  {
    bestIdx, backupIdx := -1, -1;
    var bestWeight := 0;
    for j := 0 to |list|
      invariant Scanned(w, InRange(list[..j], |w|), bestIdx, bestWeight, backupIdx)
    {
      InRangeSnoc(list, j, |w|);
      var i := list[j];
      if i < 0 || i >= |w| {
        continue;
      }
      bestIdx, bestWeight, backupIdx := Scan(w, InRange(list[..j], |w|), i, bestIdx, bestWeight, backupIdx);
    }
    assert list[..|list|] == list;
  }

  method SelectFailover(w: seq<Weight>, indices: Option<seq<int>>) returns (idx: int)
    ensures w == [] ==> idx == -1
    ensures w != [] ==>
      var c := Candidates(w, indices);
      idx == if c == [] then 0 else Best(w, c)
    ensures w != [] && indices.None? ==>
      && 0 <= idx < |w| && (forall i :: 0 <= i < |w| ==> w[i] <= w[idx]) && (forall i :: 0 <= i < idx ==> w[i] < w[idx])
    ensures w != [] && indices.Some? ==>
      if SomeInRange(indices.value, |w|) then exists p: nat :: Heaviest(w, indices.value, p) && indices.value[p] == idx
      else idx == 0
  {
    if |w| == 0 {
      return -1;
    }
    var bestIdx, backupIdx;
    if indices.None? {
      BestOfAll(w);
      bestIdx, backupIdx := ScanAll(w);
    } else {
      BestOfListed(w, indices.value);
      bestIdx, backupIdx := ScanListed(w, indices.value);
    }
    if bestIdx != -1 {
      return bestIdx;
    }
    if backupIdx != -1 {
      return backupIdx;
    }
    return 0;
  }

  // ---- Weights ----

  function Positive(w: seq<Weight>, c: seq<nat>): (k: seq<nat>)
    requires Exist(w, c)
    ensures forall j :: 0 <= j < |k| ==> k[j] < |w| && w[k[j]] > 0 && k[j] in c
    ensures |k| <= |c|
  {
    if c == [] then []
    else
      var i := c[|c| - 1];
      Positive(w, c[..|c| - 1]) + if w[i] > 0 then [i] else []
  }

  function Shares(w: seq<Weight>, k: seq<nat>): seq<Weight>
    requires Exist(w, k)
  {
    seq(|k|, j requires 0 <= j < |k| => w[k[j]])
  }

  /** The weights of the candidates, added up. */
  function Sum(w: seq<Weight>, c: seq<nat>): nat
    requires Exist(w, c)
  {
    if c == [] then 0 else Sum(w, c[..|c| - 1]) + w[c[|c| - 1]]
  }

  lemma {:induction false} SumIsTotal(w: seq<Weight>, c: seq<nat>)
    requires Exist(w, c)
    ensures Total(Shares(w, Positive(w, c))) == Sum(w, c)
    ensures Positive(w, c) == [] <==> Sum(w, c) == 0
  {
    if c != [] {
      var init, i := c[..|c| - 1], c[|c| - 1];
      SumIsTotal(w, init);
      if w[i] > 0 {
        SharesSnoc(w, Positive(w, init), i);
      } else {
        assert Positive(w, init) + [] == Positive(w, init);
      }
    }
  }

  function Total(s: seq<Weight>): nat {
    if s == [] then 0 else Total(s[..|s| - 1]) + s[|s| - 1]
  }

  /** The position in whose share of 0..Total the number r falls. */
  function Pick(s: seq<Weight>, r: nat): (p: nat)
    requires r < Total(s)
    ensures p < |s|
  {
    var init := s[..|s| - 1];
    if r < Total(init) then Pick(init, r) else |s| - 1
  }

  /** rand.Intn and rand.Uint32 are modelled by an arbitrary draw, reduced to the range asked for. */
  function Proportional(w: seq<Weight>, c: seq<nat>, draw: nat): (i: nat)
    requires c != [] && Exist(w, c)
    ensures i in c && i < |w|
  {
    var k := Positive(w, c);
    if k == [] then c[draw % |c|]
    else
      var s := Shares(w, k);
      TotalPositive(s);
      k[Pick(s, draw % Total(s))]
  }

  lemma TotalPositive(s: seq<Weight>)
    requires s != [] && s[|s| - 1] > 0
    ensures Total(s) > 0
  {
  }

  lemma {:induction false} TotalBound(s: seq<Weight>)
    ensures Total(s) <= |s| * 0xffff
  {
    if s != [] {
      TotalBound(s[..|s| - 1]);
    }
  }

  lemma {:induction false} TotalOfEqual(n: nat, x: Weight)
    ensures Total(seq(n, _ => x)) == n * x
  {
    if n > 0 {
      assert seq(n, _ => x)[..n - 1] == seq(n - 1, _ => x);
      TotalOfEqual(n - 1, x);
    }
  }

  /**
   * The 32-bit sum of n weights of 16 bits can never overflow exactly when n is
   * at most 65,537; with one tunnel more, positive weights can sum to zero.
   */
  lemma SumNeverWrapsUpTo(n: nat)
    ensures (forall s: seq<Weight> :: |s| == n ==> Total(s) < WORD32) <==> n <= 65537
  {
    forall s: seq<Weight> | |s| == n && n <= 65537
      ensures Total(s) < WORD32
    {
      TotalBound(s);
    }
    if n > 65537 {
      TotalOfEqual(n, 0xffff);
      assert |seq(n, _ => 0xffff as Weight)| == n;
    }
  }

  lemma WrapsToZero() returns (s: seq<Weight>)
    ensures |s| == 65538 && (forall j :: 0 <= j < |s| ==> s[j] > 0) && Total(s) % WORD32 == 0
  {
    var full: Weight := 0xffff;
    s := seq(65537, _ => full) + [1];
    TotalOfEqual(65537, full);
    assert s[..65537] == seq(65537, _ => full);
  }

  lemma {:induction false} TotalPrefix(s: seq<Weight>, p: nat)
    requires p < |s|
    ensures Total(s[..p]) + s[p] == Total(s[..p + 1]) <= Total(s)
  {
    assert s[..p + 1][..p] == s[..p];
    if p + 1 < |s| {
      var init := s[..|s| - 1];
      TotalPrefix(init, p);
      assert init[..p + 1] == s[..p + 1];
    } else {
      assert s[..p + 1] == s;
    }
  }

  /** r picks position p exactly when it falls between the sums before and after p. */
  lemma {:induction false} PickAt(s: seq<Weight>, r: nat, p: nat)
    requires p < |s| && r < Total(s)
    ensures Pick(s, r) == p <==> Total(s[..p]) <= r < Total(s[..p]) + s[p]
  {
    var init := s[..|s| - 1];
    TotalPrefix(s, p);
    if p < |s| - 1 {
      assert init[..p] == s[..p];
      TotalPrefix(init, p);
      if r < Total(init) {
        PickAt(init, r, p);
      }
    }
  }

  /** The candidates of non-zero weight among c, with their 32-bit sum. */
  method Collect(w: seq<Weight>, c: seq<nat>) returns (k: seq<nat>, total: nat)
    requires Exist(w, c)
    ensures k == Positive(w, c) && total == Total(Shares(w, k)) % WORD32
  {
    k, total := [], 0;
    for j := 0 to |c|
      invariant k == Positive(w, c[..j]) && total == Total(Shares(w, k)) % WORD32
    {
      CollectNext(w, c, j);
      var weight := w[c[j]];
      if weight > 0 {
        k, total := k + [c[j]], (total + weight) % WORD32;
      }
    }
    assert c[..|c|] == c;
  }

  lemma PositiveSnoc(w: seq<Weight>, c: seq<nat>, j: nat)
    requires Exist(w, c) && j < |c|
    ensures w[c[j]] > 0 ==> Positive(w, c[..j + 1]) == Positive(w, c[..j]) + [c[j]]
    ensures w[c[j]] == 0 ==> Positive(w, c[..j + 1]) == Positive(w, c[..j])
  {
    assert c[..j + 1][..j] == c[..j];
  }

  /** One round of Collect. */
  lemma CollectNext(w: seq<Weight>, c: seq<nat>, j: nat)
    requires Exist(w, c) && j < |c|
    ensures var before, after := Positive(w, c[..j]), Positive(w, c[..j + 1]);
      if w[c[j]] > 0 then
        after == before + [c[j]] && Total(Shares(w, after)) % WORD32 == (Total(Shares(w, before)) % WORD32 + w[c[j]]) % WORD32
      else after == before
  {
    PositiveSnoc(w, c, j);
    if w[c[j]] > 0 {
      SharesSnoc(w, Positive(w, c[..j]), c[j]);
      AddMod(Total(Shares(w, Positive(w, c[..j]))), w[c[j]]);
    }
  }

  lemma AddMod(a: nat, b: nat)
    ensures (a % WORD32 + b) % WORD32 == (a + b) % WORD32
  {
  }

  lemma SharesSnoc(w: seq<Weight>, k: seq<nat>, i: nat)
    requires Exist(w, k) && i < |w|
    ensures Total(Shares(w, k + [i])) == Total(Shares(w, k)) + w[i]
  {
    assert Shares(w, k + [i])[..|k|] == Shares(w, k);
  }

  /** The first position from p on whose running total, kept in 32 bits, passes r, or else the last one. */
  function FirstOver(s: seq<Weight>, r: nat, p: nat): (q: nat)
    requires p <= |s| && s != []
    ensures q < |s|
    decreases |s| - p
  {
    if p == |s| then |s| - 1
    else if r < Total(s[..p + 1]) % WORD32 then p
    else FirstOver(s, r, p + 1)
  }

  /** The weighted draw itself; found is false when the loop ends without a choice. */
  method Draw(s: seq<Weight>, r: nat) returns (p: nat, found: bool)
    requires s != []
    ensures p == FirstOver(s, r, 0)
    ensures found <==> r < Total(s[..p + 1]) % WORD32
  {
    var cumulative := 0;
    p := 0;
    while p < |s|
      invariant p <= |s| && cumulative == Total(s[..p]) % WORD32
      invariant FirstOver(s, r, p) == FirstOver(s, r, 0)
      invariant p > 0 ==> r >= cumulative
    {
      TotalPrefix(s, p);
      AddMod(Total(s[..p]), s[p]);
      cumulative := (cumulative + s[p]) % WORD32;
      if r < cumulative {
        return p, true;
      }
      p := p + 1;
    }
    return |s| - 1, false;
  }

  /** As long as the sum fits 32 bits, the loop always finds the position in whose share r falls. */
  lemma {:induction false} DrawIsPick(s: seq<Weight>, r: nat, p: nat)
    requires r < Total(s) < WORD32 && p < |s| && Total(s[..p]) <= r
    ensures FirstOver(s, r, p) == Pick(s, r)
    ensures r < Total(s[..Pick(s, r) + 1]) % WORD32
    decreases |s| - p
  {
    TotalPrefix(s, p);
    PickAt(s, r, p);
    assert s[..|s|] == s;
    if r >= Total(s[..p + 1]) {
      DrawIsPick(s, r, p + 1);
    }
  }

  lemma FallbackUnreachable(s: seq<Weight>, r: nat)
    requires r < Total(s) < WORD32
    ensures FirstOver(s, r, 0) == Pick(s, r) && r < Total(s[..FirstOver(s, r, 0) + 1]) % WORD32
  {
    DrawIsPick(s, r, 0);
  }

  /** The choice in 32-bit arithmetic; None when the modulus is zero and the program fails. */
  function Drawn(w: seq<Weight>, c: seq<nat>, draw: nat): Option<nat>
    requires c != [] && Exist(w, c)
  {
    var k := Positive(w, c);
    if k == [] then Some(c[draw % |c|])
    else if |k| == 1 then Some(k[0])
    else
      var total := Total(Shares(w, k)) % WORD32;
      if total == 0 then None else Some(k[FirstOver(Shares(w, k), draw % total, 0)])
  }

  /** The candidates k all have weight: one is taken at once, several are drawn from. */
  method DrawAmong(w: seq<Weight>, k: seq<nat>, totalWeight: nat, draw: nat) returns (idx: Option<nat>)
    requires k != [] && Exist(w, k)
    ensures idx == if |k| == 1 then Some(k[0]) else if totalWeight == 0 then None
                   else Some(k[FirstOver(Shares(w, k), draw % totalWeight, 0)])
  {
    if |k| == 1 {
      return Some(k[0]);
    }
    if totalWeight == 0 {
      return None;
    }
    var p, found := Draw(Shares(w, k), draw % totalWeight);
    return Some(k[p]);
  }

  method SelectWeighted(w: seq<Weight>, indices: Option<seq<int>>, draw: nat) returns (idx: Option<int>)
    ensures w == [] ==> idx == Some(-1)
    ensures w != [] ==>
      var c := Candidates(w, indices);
      if c == [] then idx == Some(0)
      else
        && idx.Some? == Drawn(w, c, draw).Some? && (idx.Some? ==> idx.value == Drawn(w, c, draw).value)
        && (Sum(w, c) < WORD32 ==> idx == Some(Proportional(w, c, draw)))
  {
    if |w| == 0 {
      return Some(-1);
    }
    var c := Candidates(w, indices);
    if c != [] && Sum(w, c) < WORD32 {
      SumIsTotal(w, c);
      DrawnIsProportional(w, c, draw);
    }
    if |c| == 0 {
      return Some(0);
    }
    var k, totalWeight := Collect(w, c);
    if |k| == 0 {
      return Some(c[draw % |c|]);
    }
    var chosen := DrawAmong(w, k, totalWeight, draw);
    return if chosen.Some? then Some(chosen.value) else None;
  }

  lemma SharesFit(w: seq<Weight>, c: seq<nat>)
    requires Exist(w, c) && |c| <= 65537 && Positive(w, c) != []
    ensures 0 < Total(Shares(w, Positive(w, c))) < WORD32
  {
    TotalPositive(Shares(w, Positive(w, c)));
    TotalBound(Shares(w, Positive(w, c)));
  }

  /** With a sum that fits 32 bits, so with up to 65,537 candidates, the choice is the proportional one. */
  lemma DrawnIsProportional(w: seq<Weight>, c: seq<nat>, draw: nat)
    requires c != [] && Exist(w, c)
    requires |c| <= 65537 || Total(Shares(w, Positive(w, c))) < WORD32
    ensures Drawn(w, c, draw) == Some(Proportional(w, c, draw))
  {
    var k := Positive(w, c);
    if k != [] {
      var s := Shares(w, k);
      TotalPositive(s);
      if |c| <= 65537 { SharesFit(w, c); }
      if |k| > 1 {
        DivModUnique(Total(s), 0, Total(s), WORD32);
        FallbackUnreachable(s, draw % Total(s));
      }
    }
  }

  /** How many of the draws 0..m choose position p. */
  function Hits(s: seq<Weight>, p: nat, m: nat): nat
    requires Total(s) > 0
  {
    if m == 0 then 0 else Hits(s, p, m - 1) + if Pick(s, (m - 1) % Total(s)) == p then 1 else 0
  }

  lemma {:induction false} HitsWithinPeriod(s: seq<Weight>, p: nat, m: nat)
    requires p < |s| && 0 < Total(s) && m <= Total(s)
    ensures var before := Total(s[..p]);
      Hits(s, p, m) == if m <= before then 0 else if m <= before + s[p] then m - before else s[p]
  {
    if m > 0 {
      HitsWithinPeriod(s, p, m - 1);
      PickAt(s, m - 1, p);
      DivModUnique(m - 1, 0, m - 1, Total(s));
    }
  }

  /** Of the draws below the total, exactly s[p] choose position p. */
  lemma ShareAt(s: seq<Weight>, p: nat)
    requires p < |s| && 0 < Total(s)
    ensures Hits(s, p, Total(s)) == s[p]
  {
    TotalPrefix(s, p);
    HitsWithinPeriod(s, p, Total(s));
  }

  lemma {:induction false} HitsRepeat(s: seq<Weight>, p: nat, m: nat)
    requires 0 < Total(s)
    ensures Hits(s, p, Total(s) + m) == Hits(s, p, Total(s)) + Hits(s, p, m)
  {
    if m > 0 {
      HitsRepeat(s, p, m - 1);
      ModAddPeriod(m - 1, Total(s));
    }
  }

  function Times(n: nat, x: nat): nat {
    if n == 0 then 0 else x + Times(n - 1, x)
  }

  /** Over n full periods and a rest, position p gets between n and n+1 times its share. */
  lemma {:induction false} FairAt(s: seq<Weight>, p: nat, n: nat, rest: nat)
    requires p < |s| && 0 < Total(s) && rest < Total(s)
    ensures Times(n, s[p]) <= Hits(s, p, Times(n, Total(s)) + rest) <= Times(n + 1, s[p])
  {
    if n == 0 {
      HitsWithinPeriod(s, p, rest);
    } else {
      FairAt(s, p, n - 1, rest);
      FairStep(s, p, Times(n - 1, Total(s)) + rest, Times(n - 1, s[p]), Times(n, s[p]));
    }
  }

  lemma FairStep(s: seq<Weight>, p: nat, m: nat, low: nat, high: nat)
    requires p < |s| && 0 < Total(s) && low <= Hits(s, p, m) <= high
    ensures s[p] + low <= Hits(s, p, Total(s) + m) <= s[p] + high
  {
    ShareAt(s, p);
    HitsRepeat(s, p, m);
  }

  // ---- The share of a candidate ----

  predicate Distinct(c: seq<nat>) {
    forall i, j :: 0 <= i < j < |c| ==> c[i] != c[j]
  }

  /** How many of the draws 0..m choose candidate i. */
  function Wins(w: seq<Weight>, c: seq<nat>, i: nat, m: nat): nat
    requires c != [] && Exist(w, c)
  {
    if m == 0 then 0 else Wins(w, c, i, m - 1) + if Proportional(w, c, m - 1) == i then 1 else 0
  }

  /** The place of a candidate among those that have weight, if it has any. */
  lemma {:induction false} PlaceOf(w: seq<Weight>, c: seq<nat>, i: nat) returns (p: int)
    requires Exist(w, c) && Distinct(c) && i in c
    ensures Distinct(Positive(w, c))
    ensures if w[i] > 0 then 0 <= p < |Positive(w, c)| && Positive(w, c)[p] == i else i !in Positive(w, c)
  {
    PositiveDistinct(w, c);
    PositiveHolds(w, c, i);
    p := if w[i] > 0 then var q :| 0 <= q < |Positive(w, c)| && Positive(w, c)[q] == i; q else -1;
  }

  lemma {:induction false} PositiveDistinct(w: seq<Weight>, c: seq<nat>)
    requires Exist(w, c) && Distinct(c)
    ensures Distinct(Positive(w, c))
  {
    if c != [] {
      PositiveDistinct(w, c[..|c| - 1]);
      assert c[|c| - 1] !in c[..|c| - 1];
    }
  }

  lemma {:induction false} PositiveHolds(w: seq<Weight>, c: seq<nat>, i: nat)
    requires Exist(w, c) && i in c
    ensures i in Positive(w, c) <==> w[i] > 0
  {
    if i != c[|c| - 1] {
      PositiveHolds(w, c[..|c| - 1], i);
    }
  }

  lemma WinsAt(w: seq<Weight>, c: seq<nat>, i: nat, p: int, draw: nat)
    requires Exist(w, c) && Distinct(Positive(w, c)) && Sum(w, c) > 0
    requires if p >= 0 then p < |Positive(w, c)| && Positive(w, c)[p] == i else i !in Positive(w, c)
    ensures c != []
    ensures var s := Shares(w, Positive(w, c));
      Total(s) > 0 && (Proportional(w, c, draw) == i <==> p >= 0 && Pick(s, draw % Total(s)) == p)
  {
    SumIsTotal(w, c);
  }

  lemma {:induction false} WinsAreHits(w: seq<Weight>, c: seq<nat>, i: nat, p: int, m: nat)
    requires c != [] && Exist(w, c) && Distinct(Positive(w, c)) && Sum(w, c) > 0
    requires if p >= 0 then p < |Positive(w, c)| && Positive(w, c)[p] == i else i !in Positive(w, c)
    ensures Total(Shares(w, Positive(w, c))) > 0
    ensures Wins(w, c, i, m) == if p >= 0 then Hits(Shares(w, Positive(w, c)), p, m) else 0
  {
    SumIsTotal(w, c);
    if m > 0 {
      WinsAreHits(w, c, i, p, m - 1);
      WinsAt(w, c, i, p, m - 1);
    }
  }

  /** Of as many draws as the weights add up to, each candidate wins exactly as many as its own weight says. */
  lemma ExactShare(w: seq<Weight>, c: seq<nat>, i: nat)
    requires c != [] && Exist(w, c) && Distinct(c) && i in c && Sum(w, c) > 0
    ensures Wins(w, c, i, Sum(w, c)) == w[i]
  {
    var p := PlaceOf(w, c, i);
    SumIsTotal(w, c);
    if w[i] > 0 {
      WinsAreHits(w, c, i, p, Sum(w, c));
      ShareAt(Shares(w, Positive(w, c)), p);
    } else {
      WinsAreHits(w, c, i, -1, Sum(w, c));
    }
  }

  /** Among the draws 0..m, candidate i wins between n and n+1 times its weight. */
  predicate Fair(w: seq<Weight>, c: seq<nat>, i: nat, n: nat, m: nat)
    requires Exist(w, c) && i in c
  {
    Times(n, w[i]) <= Wins(w, c, i, m) <= Times(n + 1, w[i])
  }

  lemma FairWithoutWeight(w: seq<Weight>, c: seq<nat>, i: nat, n: nat, m: nat)
    requires Exist(w, c) && Distinct(Positive(w, c)) && Sum(w, c) > 0 && i in c && i !in Positive(w, c)
    ensures Fair(w, c, i, n, m)
  {
    PositiveHolds(w, c, i);
    WinsAreHits(w, c, i, -1, m);
    TimesZero(n);
    TimesZero(n + 1);
  }

  lemma FairWithWeight(w: seq<Weight>, c: seq<nat>, i: nat, p: nat, n: nat, rest: nat)
    requires Exist(w, c) && Distinct(Positive(w, c)) && i in c && rest < Sum(w, c)
    requires p < |Positive(w, c)| && Positive(w, c)[p] == i
    ensures Fair(w, c, i, n, Times(n, Sum(w, c)) + rest)
  {
    var s := Shares(w, Positive(w, c));
    SumIsTotal(w, c);
    FairAt(s, p, n, rest);
    WinsAreHits(w, c, i, p, Times(n, Total(s)) + rest);
  }

  /** Over n full periods and a rest, a candidate wins between n and n+1 times its weight. */
  lemma FairOverAllDraws(w: seq<Weight>, c: seq<nat>, i: nat, n: nat, rest: nat)
    requires Exist(w, c) && Distinct(c) && i in c && rest < Sum(w, c)
    ensures Fair(w, c, i, n, Times(n, Sum(w, c)) + rest)
  {
    var p := PlaceOf(w, c, i);
    if w[i] > 0 {
      FairWithWeight(w, c, i, p, n, rest);
    } else {
      FairWithoutWeight(w, c, i, n, Times(n, Sum(w, c)) + rest);
    }
  }

  lemma {:induction false} TimesZero(n: nat)
    ensures Times(n, 0) == 0
  {
    if n > 0 { TimesZero(n - 1); }
  }

  lemma {:induction false} WinsUniformly(w: seq<Weight>, c: seq<nat>, i: nat, p: nat, m: nat)
    requires c != [] && Exist(w, c) && Distinct(c) && Sum(w, c) == 0 && p < |c| && c[p] == i && m <= |c|
    ensures Wins(w, c, i, m) == if m <= p then 0 else 1
  {
    if m > 0 {
      SumIsTotal(w, c);
      WinsUniformly(w, c, i, p, m - 1);
      DivModUnique(m - 1, 0, m - 1, |c|);
    }
  }

  /** Where no candidate has weight, each wins one draw in as many as there are candidates. */
  lemma UniformWithoutWeights(w: seq<Weight>, c: seq<nat>, i: nat)
    requires Exist(w, c) && Distinct(c) && i in c && Sum(w, c) == 0
    ensures c != [] && Wins(w, c, i, |c|) == 1
  {
    var p :| 0 <= p < |c| && c[p] == i;
    WinsUniformly(w, c, i, p, |c|);
  }

  // ---- Health first ----

  function ChosenFrom(w: seq<Weight>, s: Strategy, c: seq<nat>, draw: nat): (i: nat)
    requires c != [] && Exist(w, c)
    ensures i in c && i < |w|
  {
    if s.Failover? then Best(w, c) else Proportional(w, c, draw)
  }

  function HealthyIndices(states: seq<Tunnel>): (c: seq<nat>)
    ensures forall i :: i in c <==> 0 <= i < |states| && states[i].healthy
    ensures forall j :: 0 <= j < |c| ==> c[j] < |states|
  {
    if states == [] then []
    else
      var n := |states| - 1;
      HealthyIndices(states[..n]) + if states[n].healthy then [n] else []
  }

  /** selectTunnel for two or more tunnels: among the healthy ones if there are any, else among all. */
  function Chosen(w: seq<Weight>, s: Strategy, states: seq<Tunnel>, draw: nat): (i: nat)
    requires |w| == |states| >= 2
    ensures i < |w|
  {
    var healthy := HealthyIndices(states);
    ChosenFrom(w, s, if healthy == [] then Upto(|w|) else healthy, draw)
  }

  /** While any tunnel is healthy, the chosen one is. */
  lemma ChosenIsHealthy(w: seq<Weight>, s: Strategy, states: seq<Tunnel>, draw: nat)
    requires |w| == |states| >= 2
    ensures (exists i :: 0 <= i < |states| && states[i].healthy) ==> states[Chosen(w, s, states, draw)].healthy
  {
    if i :| 0 <= i < |states| && states[i].healthy {
      assert i in HealthyIndices(states);
    }
  }

  lemma {:induction false} HealthyInOrder(states: seq<Tunnel>)
    ensures forall j, k :: 0 <= j < k < |HealthyIndices(states)| ==> HealthyIndices(states)[j] < HealthyIndices(states)[k]
  {
    if states != [] {
      var n := |states| - 1;
      HealthyInOrder(states[..n]);
      assert forall j :: 0 <= j < |HealthyIndices(states[..n])| ==> HealthyIndices(states[..n])[j] < n;
    }
  }

  /** By priority, the chosen tunnel is the first of the heaviest healthy ones. */
  lemma FailoverChoosesHeaviest(w: seq<Weight>, states: seq<Tunnel>, draw: nat, j: nat)
    requires |w| == |states| >= 2 && j < |states| && states[j].healthy
    ensures var i := Chosen(w, Failover, states, draw);
      states[i].healthy && w[j] <= w[i] && (j < i ==> w[j] < w[i])
  {
    var c := HealthyIndices(states);
    HealthyInOrder(states);
    var p := BestIsFirstMaximum(w, c);
    var q :| 0 <= q < |c| && c[q] == j;
    assert w[c[q]] <= w[c[p]] && (q < p ==> w[c[q]] < w[c[p]]);
    if p < q { assert c[p] < c[q]; }
  }

  lemma ChosenByWeight(w: seq<Weight>, states: seq<Tunnel>, c: seq<nat>, draw: nat)
    requires |w| == |states| >= 2 && c == HealthyIndices(states) && c != []
    ensures Chosen(w, Weighted, states, draw) == Proportional(w, c, draw)
  {
  }

  /**
   * By weight, the healthy tunnels share the draws among themselves: of as many
   * as their weights add up to, each gets exactly its weight.
   */
  lemma HealthyShare(w: seq<Weight>, states: seq<Tunnel>, i: nat)
    requires |w| == |states| >= 2 && i < |states| && states[i].healthy && Sum(w, HealthyIndices(states)) > 0
    ensures var c := HealthyIndices(states);
      && c != [] && Wins(w, c, i, Sum(w, c)) == w[i]
      && forall draw :: Chosen(w, Weighted, states, draw) == Proportional(w, c, draw)
  {
    var c := HealthyIndices(states);
    assert i in c;
    HealthyInOrder(states);
    ExactShare(w, c, i);
    forall draw ensures Chosen(w, Weighted, states, draw) == Proportional(w, c, draw) {
      ChosenByWeight(w, states, c, draw);
    }
  }

  /** The dispatch of selectTunnel over the two strategies. */
  method SelectTunnel(w: seq<Weight>, s: Strategy, states: seq<Tunnel>, draw: nat) returns (idx: int)
    requires |w| == |states| && |w| <= 65537
    ensures |w| <= 1 ==> idx == 0
    ensures |w| >= 2 ==> idx == Chosen(w, s, states, draw)
  {
    if |w| <= 1 {
      return 0;
    }
    var indices := HealthyIndices(states);
    UptoInRange(indices, |w|);
    HealthyCount(states);
    if |indices| == 0 {
      idx := SelectBy(w, s, None, draw);
      return;
    }
    if |indices| == 1 {
      Alone(w, indices, draw);
      return indices[0];
    }
    idx := SelectBy(w, s, Some(indices), draw);
  }

  method SelectBy(w: seq<Weight>, s: Strategy, indices: Option<seq<int>>, draw: nat) returns (idx: int)
    requires Candidates(w, indices) != [] && |Candidates(w, indices)| <= 65537
    ensures idx == ChosenFrom(w, s, Candidates(w, indices), draw)
  {
    if s.Failover? {
      idx := SelectFailover(w, indices);
    } else {
      DrawnIsProportional(w, Candidates(w, indices), draw);
      var chosen := SelectWeighted(w, indices, draw);
      idx := chosen.value;
    }
  }

  lemma {:induction false} UptoInRange(c: seq<nat>, n: nat)
    requires forall j :: 0 <= j < |c| ==> c[j] < n
    ensures InRange(c, n) == c
  {
    if c != [] {
      UptoInRange(c[..|c| - 1], n);
      assert c == c[..|c| - 1] + [c[|c| - 1]];
    }
  }

  lemma {:induction false} HealthyCount(states: seq<Tunnel>)
    ensures |HealthyIndices(states)| <= |states|
  {
    if states != [] {
      HealthyCount(states[..|states| - 1]);
    }
  }

  lemma Alone(w: seq<Weight>, c: seq<nat>, draw: nat)
    requires |c| == 1 && Exist(w, c)
    ensures Best(w, c) == c[0] && Proportional(w, c, draw) == c[0]
  {
    assert Proportional(w, c, draw) in c;
  }

  // ---- Runs ----

  /**
   * Choosing, sending Connect and recording the outcome is one event; a failed
   * send on an older connection records a failure for its own tunnel.
   */
  datatype Event = NewConnection(draw: nat, outcome: Outcome) | SendFailed(tunnel: nat)

  function Happen(w: seq<Weight>, s: Strategy, t: Thresholds, states: seq<Tunnel>, e: Event): (after: seq<Tunnel>)
    requires |w| == |states| >= 2
    ensures |after| == |states|
  {
    match e
    case NewConnection(draw, o) =>
      var i := Chosen(w, s, states, draw);
      states[i := Recorded(states[i], t, o)]
    case SendFailed(i) => if i < |states| then states[i := Failed(states[i], t)] else states
  }

  function HealthySet(states: seq<Tunnel>): set<nat> {
    set i: nat | i < |states| && states[i].healthy
  }

  /**
   * An unhealthy tunnel gets no chance to recover while another is healthy: over
   * any run in which some tunnel was healthy before each event, the set of
   * healthy tunnels only shrinks.
   */
  lemma {:induction false} HealthySetShrinks(w: seq<Weight>, s: Strategy, t: Thresholds, states: seq<Tunnel>, es: seq<Event>)
    requires |w| == |states| >= 2 && NeverAllDown(w, s, t, states, es)
    ensures HealthySet(HappenAll(w, s, t, states, es)) <= HealthySet(states)
    decreases |es|
  {
    if es != [] {
      var next := Happen(w, s, t, states, es[0]);
      if es[0].NewConnection? {
        assert states[Chosen(w, s, states, es[0].draw)].healthy by {
          var i :| i in HealthySet(states);
          ChosenIsHealthy(w, s, states, es[0].draw);
        }
      }
      assert HealthySet(next) <= HealthySet(states);
      HealthySetShrinks(w, s, t, next, es[1..]);
    }
  }

  function HappenAll(w: seq<Weight>, s: Strategy, t: Thresholds, states: seq<Tunnel>, es: seq<Event>): (after: seq<Tunnel>)
    requires |w| == |states| >= 2
    ensures |after| == |states|
    decreases |es|
  {
    if es == [] then states else HappenAll(w, s, t, Happen(w, s, t, states, es[0]), es[1..])
  }

  predicate NeverAllDown(w: seq<Weight>, s: Strategy, t: Thresholds, states: seq<Tunnel>, es: seq<Event>)
    requires |w| == |states| >= 2
    decreases |es|
  {
    es != [] ==> HealthySet(states) != {} && NeverAllDown(w, s, t, Happen(w, s, t, states, es[0]), es[1..])
  }

  // ---- Failing over ----

  lemma {:induction false} SameHealth(a: seq<Tunnel>, b: seq<Tunnel>)
    requires |a| == |b| && forall i :: 0 <= i < |a| ==> a[i].healthy == b[i].healthy
    ensures HealthyIndices(a) == HealthyIndices(b)
  {
    if a != [] {
      SameHealth(a[..|a| - 1], b[..|b| - 1]);
    }
  }

  /** A failure of tunnel i: of a new connection that was given to it, or of one that it already had. */
  predicate FailureOf(i: nat, e: Event) {
    match e
    case NewConnection(_, o) => o.Bad?
    case SendFailed(k) => k == i
  }

  predicate FailuresOf(i: nat, es: seq<Event>) {
    forall k :: 0 <= k < |es| ==> FailureOf(i, es[k])
  }

  lemma OneMoreFailure(w: seq<Weight>, t: Thresholds, states: seq<Tunnel>, e: Event, i: nat)
    requires |w| == |states| >= 2 && Sensible(t) && i < |states| && FailureOf(i, e)
    requires i == Chosen(w, Failover, states, 0) && states[i].healthy && states[i].failureCount + 1 < t.unhealthy
    ensures var after := Happen(w, Failover, t, states, e);
      && after[i].healthy && after[i].failureCount == states[i].failureCount + 1 && after == states[i := after[i]]
      && Chosen(w, Failover, after, 0) == i
  {
    var after := Happen(w, Failover, t, states, e);
    SameHealth(states, after);
  }

  lemma LastFailure(w: seq<Weight>, t: Thresholds, states: seq<Tunnel>, e: Event, i: nat)
    requires |w| == |states| >= 2 && Sensible(t) && i < |states| && FailureOf(i, e)
    requires i == Chosen(w, Failover, states, 0) && states[i].healthy && states[i].failureCount + 1 == t.unhealthy
    ensures var after := Happen(w, Failover, t, states, e);
      !after[i].healthy && after == states[i := after[i]]
  {
  }

  lemma {:induction false} GoesDown(w: seq<Weight>, t: Thresholds, states: seq<Tunnel>, es: seq<Event>, i: nat)
    requires |w| == |states| >= 2 && Sensible(t) && i < |states| && FailuresOf(i, es)
    requires i == Chosen(w, Failover, states, 0) && states[i].healthy && states[i].failureCount + |es| == t.unhealthy && es != []
    ensures var after := HappenAll(w, Failover, t, states, es);
      !after[i].healthy && after == states[i := after[i]]
    decreases |es|
  {
    var next := Happen(w, Failover, t, states, es[0]);
    if |es| == 1 {
      LastFailure(w, t, states, es[0], i);
      assert es[1..] == [] && HappenAll(w, Failover, t, next, []) == next;
    } else {
      OneMoreFailure(w, t, states, es[0], i);
      GoesDown(w, t, next, es[1..], i);
    }
  }

  /**
   * Failing over: once the preferred tunnel has failed as often in a row as the
   * threshold says, for new connections or for old ones, it is down, no other
   * tunnel has been touched, and the next connection goes to another healthy
   * tunnel if there is one.
   */
  lemma FailsOver(w: seq<Weight>, t: Thresholds, states: seq<Tunnel>, es: seq<Event>, i: nat, draw: nat)
    requires |w| == |states| >= 2 && Sensible(t) && i < |states| && FailuresOf(i, es)
    requires i == Chosen(w, Failover, states, 0) && states[i].healthy && states[i].failureCount + |es| == t.unhealthy && es != []
    ensures var after := HappenAll(w, Failover, t, states, es);
      && !after[i].healthy && after == states[i := after[i]]
      && ((exists j :: 0 <= j < |states| && j != i && states[j].healthy) ==>
            Chosen(w, Failover, after, draw) != i && after[Chosen(w, Failover, after, draw)].healthy)
  {
    GoesDown(w, t, states, es, i);
    var after := HappenAll(w, Failover, t, states, es);
    if j :| 0 <= j < |states| && j != i && states[j].healthy {
      assert after[j].healthy;
      ChosenIsHealthy(w, Failover, after, draw);
    }
  }
}
