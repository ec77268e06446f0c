/** Incremental syncs over any delivery order, with duplicates and losses. */
module RuleVersions {
  import opened Rules
  import opened RuleState

  datatype Delta = Delta(d: ConfigSync, w: World)

  function Deliver(s: Tables, ds: seq<Delta>): Tables {
    if ds == [] then s
    else
      var last := ds[|ds| - 1];
      Configure(Deliver(s, ds[..|ds| - 1]), last.d, last.w)
  }

  predicate AllIncremental(ds: seq<Delta>) {
    forall i :: 0 <= i < |ds| ==> !ds[i].d.fullSync
  }

  /** Newer than the snapshot and than everything delivered before. */
  predicate Newest(version: nat, ds: seq<Delta>, i: nat)
    requires i < |ds|
  {
    version < ds[i].d.version && forall j :: 0 <= j < i ==> ds[j].d.version < ds[i].d.version
  }

  /** The deltas that set a new highest version, in order of delivery. */
  function Records(version: nat, ds: seq<Delta>): seq<ConfigSync> {
    if ds == [] then []
    else
      Records(version, ds[..|ds| - 1]) + if Newest(version, ds, |ds| - 1) then [ds[|ds| - 1].d] else []
  }

  /** The rules after applying deltas one after the other to a snapshot. */
  function Fold(rules: map<RuleID, Rule>, ds: seq<ConfigSync>): map<RuleID, Rule> {
    if ds == [] then rules else Merged(Fold(rules, ds[..|ds| - 1]), ds[|ds| - 1])
  }

  predicate Increasing(version: nat, ds: seq<ConfigSync>) {
    && (forall i :: 0 <= i < |ds| ==> version < ds[i].version)
    && (forall i, j :: 0 <= i < j < |ds| ==> ds[i].version < ds[j].version)
  }

  function Highest(version: nat, ds: seq<Delta>): nat {
    if ds == [] then version
    else
      var h := Highest(version, ds[..|ds| - 1]);
      if h < ds[|ds| - 1].d.version then ds[|ds| - 1].d.version else h
  }

  lemma {:induction false} HighestIsHighest(version: nat, ds: seq<Delta>)
    ensures version <= Highest(version, ds)
    ensures forall i :: 0 <= i < |ds| ==> ds[i].d.version <= Highest(version, ds)
    ensures Highest(version, ds) == version || exists i :: 0 <= i < |ds| && ds[i].d.version == Highest(version, ds)
  {
    if ds != [] {
      var init := ds[..|ds| - 1];
      HighestIsHighest(version, init);
      if Highest(version, ds) != version && Highest(version, ds) == Highest(version, init) {
        var i :| 0 <= i < |init| && init[i].d.version == Highest(version, init);
        assert ds[i] == init[i];
      }
    }
  }

  lemma NewestIsHigher(version: nat, ds: seq<Delta>)
    requires ds != []
    ensures Newest(version, ds, |ds| - 1) <==> Highest(version, ds[..|ds| - 1]) < ds[|ds| - 1].d.version
  {
    var init := ds[..|ds| - 1];
    HighestIsHighest(version, init);
    assert forall i :: 0 <= i < |init| ==> init[i] == ds[i];
  }

  lemma {:induction false} RecordsIncrease(version: nat, ds: seq<Delta>)
    ensures Increasing(version, Records(version, ds))
    ensures forall i :: 0 <= i < |Records(version, ds)| ==> Records(version, ds)[i].version <= Highest(version, ds)
  {
    if ds != [] {
      RecordsIncrease(version, ds[..|ds| - 1]);
      NewestIsHigher(version, ds);
    }
  }

  /**
   * However the deltas since a snapshot arrive, late, twice or not at all, the
   * rules are the snapshot with exactly those deltas applied that were newer
   * than everything before them; their versions strictly increase.
   */
  lemma {:induction false} DeltasFold(s: Tables, ds: seq<Delta>)
    requires AllIncremental(ds)
    ensures Deliver(s, ds).rules == Fold(s.rules, Records(s.version, ds))
    ensures Deliver(s, ds).version == Highest(s.version, ds)
    ensures Increasing(s.version, Records(s.version, ds))
  {
    RecordsIncrease(s.version, ds);
    if ds != [] {
      var init, last := ds[..|ds| - 1], ds[|ds| - 1];
      DeltasFold(s, init);
      NewestIsHigher(s.version, ds);
      ConfigureDelta(Deliver(s, init), last.d, last.w);
      FoldNext(s.rules, Records(s.version, init), last.d);
    }
  }

  lemma ConfigureDelta(s: Tables, d: ConfigSync, w: World)
    requires !d.fullSync
    ensures Configure(s, d, w).rules == if s.version < d.version then Merged(s.rules, d) else s.rules
    ensures Configure(s, d, w).version == if s.version < d.version then d.version else s.version
  {
  }

  lemma FoldNext(rules: map<RuleID, Rule>, ds: seq<ConfigSync>, d: ConfigSync)
    ensures Fold(rules, ds + [d]) == Merged(Fold(rules, ds), d)
    ensures ds + [] == ds
  {
    assert (ds + [d])[..|ds|] == ds;
  }

  /** A delta that is stale, or has been delivered before, changes nothing at all. */
  lemma StaleChangesNothing(s: Tables, ds: seq<Delta>, again: Delta)
    requires AllIncremental(ds) && !again.d.fullSync
    requires again.d.version <= s.version || exists i :: 0 <= i < |ds| && ds[i].d.version == again.d.version
    ensures Deliver(s, ds + [again]) == Deliver(s, ds)
  {
    DeltasFold(s, ds);
    HighestIsHighest(s.version, ds);
    assert (ds + [again])[..|ds|] == ds;
  }

  /** A full sync is taken whatever its version, and starts the count afresh. */
  lemma SnapshotThenDeltas(s: Tables, full: Delta, ds: seq<Delta>)
    requires full.d.fullSync && AllIncremental(ds)
    ensures var t := Deliver(Configure(s, full.d, full.w), ds);
      && t.rules == Fold(RuleMap(ConvertedAll(full.d.added)), Records(full.d.version, ds))
      && t.version == Highest(full.d.version, ds)
  {
    DeltasFold(Configure(s, full.d, full.w), ds);
    FullSyncRules(s, full.d, full.w);
  }

  lemma FullSyncRules(s: Tables, d: ConfigSync, w: World)
    requires d.fullSync
    ensures Configure(s, d, w).rules == RuleMap(ConvertedAll(d.added)) && Configure(s, d, w).version == d.version
  {
  }
}
