/** Lists of traffic items per rule, and how failed reports are merged. */
module Traffic {
  type RuleID = string

  datatype Item = Item(ruleID: RuleID, up: nat, down: nat)

  datatype Direction = Upload | Download

  const MAX_PENDING: nat := 1000

  function Amount(i: Item, d: Direction): nat {
    if d.Upload? then i.up else i.down
  }

  /** All bytes of one rule in one direction. */
  function Total(items: seq<Item>, id: RuleID, d: Direction): nat {
    if items == [] then 0
    else
      var last := items[|items| - 1];
      Total(items[..|items| - 1], id, d) + if last.ruleID == id then Amount(last, d) else 0
  }

  predicate UniqueIDs(items: seq<Item>) {
    forall i, j :: 0 <= i < j < |items| ==> items[i].ruleID != items[j].ruleID
  }

  // ---- Merging ----

  /** The index the merge map holds for an id: its last occurrence, or -1. */
  function IndexOf(items: seq<Item>, id: RuleID): (i: int)
    ensures -1 <= i < |items|
    ensures i >= 0 ==> items[i].ruleID == id
    ensures forall j :: i < j < |items| ==> items[j].ruleID != id
  {
    if items == [] then -1
    else if items[|items| - 1].ruleID == id then |items| - 1
    else IndexOf(items[..|items| - 1], id)
  }

  function Sum(a: Item, b: Item): Item {
    a.(up := a.up + b.up, down := a.down + b.down)
  }

  function Put(items: seq<Item>, item: Item): seq<Item> {
    var i := IndexOf(items, item.ruleID);
    if i >= 0 then items[i := Sum(items[i], item)] else items + [item]
  }

  function PutAll(items: seq<Item>, more: seq<Item>): seq<Item> {
    if more == [] then items else Put(PutAll(items, more[..|more| - 1]), more[|more| - 1])
  }

  /** mergeTrafficItems: an empty side is not looked at. */
  function Merge(existing: seq<Item>, more: seq<Item>): seq<Item> {
    if existing == [] then more else PutAll(existing, more)
  }

  method MergeTrafficItems(existing: seq<Item>, more: seq<Item>) returns (result: seq<Item>)
    ensures result == Merge(existing, more)
  {
    if |existing| == 0 {
      return more;
    }
    if |more| == 0 {
      return existing;
    }
    var indexMap: map<RuleID, nat> := map[];
    result := [];
    for i := 0 to |existing|
      invariant result == existing[..i] && Indexed(indexMap, result)
    {
      IndexAppend(indexMap, result, existing[i]);
      indexMap := indexMap[existing[i].ruleID := |result|];
      result := result + [existing[i]];
    }
    assert existing[..|existing|] == existing;
    for i := 0 to |more|
      invariant result == PutAll(existing, more[..i]) && Indexed(indexMap, result)
    {
      assert more[..i + 1][..i] == more[..i];
      IndexUse(indexMap, result, more[i].ruleID);
      if more[i].ruleID in indexMap {
        var idx := indexMap[more[i].ruleID];
        IndexUpdate(indexMap, result, idx, Sum(result[idx], more[i]));
        result := result[idx := Sum(result[idx], more[i])];
      } else {
        IndexAppend(indexMap, result, more[i]);
        indexMap := indexMap[more[i].ruleID := |result|];
        result := result + [more[i]];
      }
    }
    assert more[..|more|] == more;
  }

  /** The index map knows the last occurrence of every id, and nothing else. */
  ghost predicate Indexed(m: map<RuleID, nat>, items: seq<Item>) {
    forall id :: IndexOf(items, id) == if id in m then m[id] else -1
  }

  lemma IndexAppend(m: map<RuleID, nat>, items: seq<Item>, item: Item)
    requires Indexed(m, items)
    ensures Indexed(m[item.ruleID := |items|], items + [item])
  {
    assert (items + [item])[..|items|] == items;
  }

  lemma IndexUse(m: map<RuleID, nat>, items: seq<Item>, id: RuleID)
    requires Indexed(m, items)
    ensures IndexOf(items, id) == if id in m then m[id] else -1
  {
  }

  lemma {:induction false} IndexOfUpdated(items: seq<Item>, i: nat, item: Item, id: RuleID)
    requires i < |items| && items[i].ruleID == item.ruleID
    ensures IndexOf(items[i := item], id) == IndexOf(items, id)
  {
    if i < |items| - 1 && items[|items| - 1].ruleID != id {
      IndexOfUpdated(items[..|items| - 1], i, item, id);
      assert items[i := item][..|items| - 1] == items[..|items| - 1][i := item];
    } else if i == |items| - 1 {
      assert items[i := item][..|items| - 1] == items[..|items| - 1];
    }
  }

  lemma IndexUpdate(m: map<RuleID, nat>, items: seq<Item>, i: nat, item: Item)
    requires Indexed(m, items) && i < |items| && items[i].ruleID == item.ruleID
    ensures Indexed(m, items[i := item])
  {
    forall id
      ensures IndexOf(items[i := item], id) == if id in m then m[id] else -1
    {
      IndexOfUpdated(items, i, item, id);
      IndexUse(m, items, id);
    }
  }

  // ---- What merging keeps ----

  lemma {:induction false} TotalUpdated(items: seq<Item>, i: nat, item: Item, id: RuleID, d: Direction)
    requires i < |items| && items[i].ruleID == item.ruleID
    ensures Total(items[i := item], id, d) + (if item.ruleID == id then Amount(items[i], d) else 0)
         == Total(items, id, d) + if item.ruleID == id then Amount(item, d) else 0
  {
    if i == |items| - 1 {
      assert items[i := item][..|items| - 1] == items[..|items| - 1];
    } else {
      TotalUpdated(items[..|items| - 1], i, item, id, d);
      assert items[i := item][..|items| - 1] == items[..|items| - 1][i := item];
    }
  }

  lemma TotalAppended(items: seq<Item>, item: Item, id: RuleID, d: Direction)
    ensures Total(items + [item], id, d) == Total(items, id, d) + if item.ruleID == id then Amount(item, d) else 0
  {
    assert (items + [item])[..|items|] == items;
  }

  lemma {:induction false} TotalConcat(a: seq<Item>, b: seq<Item>, id: RuleID, d: Direction)
    ensures Total(a + b, id, d) == Total(a, id, d) + Total(b, id, d)
  {
    if b == [] {
      assert a + b == a;
    } else {
      assert (a + b)[..|a + b| - 1] == a + b[..|b| - 1];
      TotalConcat(a, b[..|b| - 1], id, d);
    }
  }

  lemma PutTotal(items: seq<Item>, item: Item, id: RuleID, d: Direction)
    ensures Total(Put(items, item), id, d) == Total(items, id, d) + if item.ruleID == id then Amount(item, d) else 0
  {
    var i := IndexOf(items, item.ruleID);
    if i >= 0 {
      TotalUpdated(items, i, Sum(items[i], item), id, d);
    } else {
      TotalAppended(items, item, id, d);
    }
  }

  lemma {:induction false} PutAllTotal(items: seq<Item>, more: seq<Item>, id: RuleID, d: Direction)
    ensures Total(PutAll(items, more), id, d) == Total(items, id, d) + Total(more, id, d)
  {
    if more != [] {
      PutAllTotal(items, more[..|more| - 1], id, d);
      PutTotal(PutAll(items, more[..|more| - 1]), more[|more| - 1], id, d);
    }
  }

  /** Merging adds up: no byte of any rule is lost or counted twice. */
  lemma MergeTotal(existing: seq<Item>, more: seq<Item>, id: RuleID, d: Direction)
    ensures Total(Merge(existing, more), id, d) == Total(existing, id, d) + Total(more, id, d)
  {
    if existing != [] {
      PutAllTotal(existing, more, id, d);
    }
  }

  function IDs(items: seq<Item>): set<RuleID> {
    set i | 0 <= i < |items| :: items[i].ruleID
  }

  lemma PutUnique(items: seq<Item>, item: Item)
    requires UniqueIDs(items)
    ensures UniqueIDs(Put(items, item)) && IDs(Put(items, item)) == IDs(items) + {item.ruleID}
  {
    var i := IndexOf(items, item.ruleID);
    var after := Put(items, item);
    if i >= 0 {
      assert forall j :: 0 <= j < |items| ==> after[j].ruleID == items[j].ruleID;
      assert IDs(after) == IDs(items);
    } else {
      assert forall j :: 0 <= j < |items| ==> after[j] == items[j];
      assert after[|items|] == item;
    }
  }

  lemma {:induction false} PutAllUnique(items: seq<Item>, more: seq<Item>)
    requires UniqueIDs(items)
    ensures UniqueIDs(PutAll(items, more)) && IDs(PutAll(items, more)) == IDs(items) + IDs(more)
  {
    if more != [] {
      var init, last := more[..|more| - 1], more[|more| - 1];
      PutAllUnique(items, init);
      PutUnique(PutAll(items, init), last);
      assert more == init + [last];
      assert IDs(more) == IDs(init) + {last.ruleID};
    }
  }

  lemma MergeUnique(existing: seq<Item>, more: seq<Item>)
    requires UniqueIDs(existing) && UniqueIDs(more)
    ensures UniqueIDs(Merge(existing, more)) && IDs(Merge(existing, more)) == IDs(existing) + IDs(more)
  {
    PutAllUnique(existing, more);
  }

  /** The ids of a list, in order. */
  function Names(items: seq<Item>): seq<RuleID> {
    seq(|items|, i requires 0 <= i < |items| => items[i].ruleID)
  }

  /** The ids of a second list that the first one does not have, in order. */
  function NewNames(items: seq<Item>, more: seq<Item>): seq<RuleID> {
    if more == [] then []
    else
      var last := more[|more| - 1].ruleID;
      NewNames(items, more[..|more| - 1]) + if last in IDs(items) then [] else [last]
  }

  lemma PutNames(items: seq<Item>, item: Item)
    ensures Names(Put(items, item)) == Names(items) + if item.ruleID in IDs(items) then [] else [item.ruleID]
  {
    var i := IndexOf(items, item.ruleID);
    if i >= 0 {
      assert items[i].ruleID in IDs(items);
    } else {
      assert item.ruleID !in IDs(items);
    }
  }

  lemma {:induction false} PutAllNames(items: seq<Item>, more: seq<Item>)
    requires UniqueIDs(items) && UniqueIDs(more)
    ensures Names(PutAll(items, more)) == Names(items) + NewNames(items, more)
  {
    if more != [] {
      var init, last := more[..|more| - 1], more[|more| - 1];
      PutAllNames(items, init);
      PutAllUnique(items, init);
      PutNames(PutAll(items, init), last);
      assert last.ruleID !in IDs(init);
      assert Names(PutAll(items, more)) == Names(items) + NewNames(items, init) + if last.ruleID in IDs(items) then [] else [last.ruleID];
    }
  }

  /** Merging keeps the order: first the rules of the first list, then those that only the second one has. */
  lemma MergeKeepsOrder(existing: seq<Item>, more: seq<Item>)
    requires UniqueIDs(existing) && UniqueIDs(more)
    ensures Names(Merge(existing, more)) == Names(existing) + NewNames(existing, more)
  {
    if existing == [] {
      AllNew(more);
      assert Names(existing) + NewNames(existing, more) == NewNames(existing, more);
    } else {
      PutAllNames(existing, more);
    }
  }

  lemma {:induction false} AllNew(more: seq<Item>)
    ensures NewNames([], more) == Names(more)
  {
    if more != [] {
      AllNew(more[..|more| - 1]);
      assert Names(more) == Names(more[..|more| - 1]) + [more[|more| - 1].ruleID];
    }
  }

  /** As many items as ids, so never more items than rules. */
  lemma {:induction false} UniqueCount(items: seq<Item>, ids: set<RuleID>)
    requires UniqueIDs(items) && IDs(items) <= ids
    ensures |items| <= |ids|
  {
    if items != [] {
      var init, last := items[..|items| - 1], items[|items| - 1];
      assert last.ruleID in IDs(items);
      forall id | id in IDs(init)
        ensures id in ids - {last.ruleID}
      {
        var i :| 0 <= i < |init| && init[i].ruleID == id;
        assert items[i].ruleID in IDs(items);
      }
      UniqueCount(init, ids - {last.ruleID});
    }
  }

  // ---- Pending traffic ----

  /** Over the limit, the oldest items go. */
  function Overflow(items: seq<Item>): nat {
    if |items| > MAX_PENDING then |items| - MAX_PENDING else 0
  }

  class Counter {
    var uploadBytes: nat
    var downloadBytes: nat

    constructor ()
      ensures uploadBytes == 0 && downloadBytes == 0
    {
      uploadBytes, downloadBytes := 0, 0;
    }

    method AddUpload(n: nat)
      modifies this`uploadBytes
      ensures uploadBytes == old(uploadBytes) + n
    {
      uploadBytes := uploadBytes + n;
    }

    method AddDownload(n: nat)
      modifies this`downloadBytes
      ensures downloadBytes == old(downloadBytes) + n
    {
      downloadBytes := downloadBytes + n;
    }

    method GetAndReset() returns (upload: nat, download: nat)
      modifies this
      ensures upload == old(uploadBytes) && download == old(downloadBytes)
      ensures uploadBytes == 0 && downloadBytes == 0
    {
      upload := uploadBytes;
      uploadBytes := 0;
      download := downloadBytes;
      downloadBytes := 0;
    }
  }

  class Pending {
    var items: seq<Item>
    ghost var dropped: seq<Item>

    ghost predicate Valid()
      reads this
    {
      UniqueIDs(items) && |items| <= MAX_PENDING
    }

    constructor ()
      ensures Valid() && items == [] && dropped == []
    {
      items, dropped := [], [];
    }

    /** The merge at the start of a report. */
    method TakeInto(collected: seq<Item>) returns (all: seq<Item>)
      requires Valid()
      modifies this`items
      ensures Valid() && items == [] && all == Merge(old(items), collected)
    {
      all := collected;
      if |items| > 0 {
        all := MergeTrafficItems(items, collected);
        items := [];
      }
    }

    /** After a failed report: what does not fit is dropped, and nothing else is. */
    method Save(failed: seq<Item>)
      requires Valid() && UniqueIDs(failed)
      modifies this
      ensures Valid()
      ensures var all := Merge(old(items), failed);
        items == all[Overflow(all)..] && dropped == old(dropped) + all[..Overflow(all)]
      ensures var all := Merge(old(items), failed);
        |items| == (if |all| <= 1000 then |all| else 1000) && items == all[|all| - |items|..]
    {
      MergeUnique(items, failed);
      items := MergeTrafficItems(items, failed);
      var drop := 0;
      if |items| > MAX_PENDING {
        drop := |items| - MAX_PENDING;
      }
      dropped := dropped + items[..drop];
      items := items[drop..];
    }
  }
}
