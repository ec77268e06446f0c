/** What holds of the agent's tables over every run of syncs and commands. */
module RuleTheorems {
  import opened Rules
  import opened RuleState

  // ---- The reconciliation invariant ----

  /** The forwarder's rule is current in every field that is compared, and may run. */
  predicate InStep(s: Tables, id: RuleID)
    requires id in s.forwarders
  {
    && id in s.rules
    && s.forwarders[id].id == id
    && !Changed(s.forwarders[id], s.rules[id])
    && !Blocked(s.blocked, s.forwarders[id].config.protocol)
  }

  predicate SaysRunning(s: Tables, id: RuleID) {
    id in s.status && s.status[id] == RUNNING
  }

  /** Reconciled, except that the status of the rules in open is still to be set. */
  ghost predicate ReconciledBut(s: Tables, open: set<RuleID>) {
    && (forall id :: id in s.rules ==> s.rules[id].id == id)
    && (forall id :: id in s.forwarders ==> InStep(s, id))
    && (forall id :: id !in open ==> (SaysRunning(s, id) <==> id in s.forwarders))
  }

  ghost predicate Reconciled(s: Tables) {
    ReconciledBut(s, {})
  }

  lemma StartAllReconciles(s: Tables, open: set<RuleID>, batch: map<RuleID, Rule>, ok: set<RuleID>)
    requires ReconciledBut(s, open)
    requires forall id :: id in batch ==> id in s.rules && batch[id] == s.rules[id] && id !in s.forwarders
    ensures ReconciledBut(StartAll(s, batch, ok), open - batch.Keys)
  {
    var t := StartAll(s, batch, ok);
    forall id | id in t.forwarders
      ensures InStep(t, id)
    {
      if id !in batch { assert InStep(s, id); }
    }
  }

  /** The state between the two locks of a sync: only what will be restarted is out of step. */
  lemma StopOutdatedReconciles(s: Tables, rules: map<RuleID, Rule>, blocked: seq<string>, forbidden: set<RuleID>)
    requires Reconciled(s) && forall id :: id in rules ==> rules[id].id == id
    requires forbidden <= s.forwarders.Keys * rules.Keys
    requires NowBlocked(s, rules, blocked) <= forbidden + Edited(s, rules)
    ensures ReconciledBut(StopOutdated(s, rules, forbidden).(rules := rules, blocked := blocked), Edited(s, rules) - forbidden)
  {
    var t := StopOutdated(s, rules, forbidden).(rules := rules, blocked := blocked);
    forall id | id in t.forwarders
      ensures InStep(t, id)
    {
      assert InStep(s, id) && id !in Edited(s, rules) && id !in NowBlocked(s, rules, blocked);
    }
  }

  lemma ResyncReconciles(s: Tables, rules: map<RuleID, Rule>, blocked: seq<string>, forbidden: set<RuleID>, w: World)
    requires Reconciled(s) && forall id :: id in rules ==> rules[id].id == id
    requires forbidden <= s.forwarders.Keys * rules.Keys
    requires NowBlocked(s, rules, blocked) <= forbidden + Edited(s, rules)
    ensures Reconciled(Resync(s, rules, blocked, forbidden, w))
  {
    StopOutdatedReconciles(s, rules, blocked, forbidden);
    var s1 := StopOutdated(s, rules, forbidden).(rules := rules, blocked := blocked);
    var again := Pick(rules, Edited(s, rules) - forbidden);
    StartAllReconciles(s1, again.Keys, again, w.first);
    var s2 := Restarted(s, rules, blocked, forbidden, w);
    StartAllReconciles(s2, {}, Pick(rules, rules.Keys - s2.forwarders.Keys), w.second);
  }

  /** No running rule is blocked by the list in force unless it has been edited to be. */
  lemma BlockedWasEdited(s: Tables, rules: map<RuleID, Rule>)
    requires Reconciled(s)
    ensures NowBlocked(s, rules, s.blocked) <= Edited(s, rules)
  {
    forall id | id in NowBlocked(s, rules, s.blocked)
      ensures id in Edited(s, rules)
    {
      assert InStep(s, id);
    }
  }

  lemma StopBlockedReconciles(s: Tables, blocked: seq<string>)
    requires Reconciled(s)
    ensures Reconciled(StopBlocked(s.(blocked := blocked)))
  {
    var u := s.(blocked := blocked);
    var t := StopBlocked(u);
    forall id | id in t.forwarders
      ensures InStep(t, id)
    {
      assert InStep(s, id) && id !in NowBlocked(u, u.rules, u.blocked);
    }
  }

  // ---- Incremental syncs ----

  /** What an incremental sync expects of the server; removing and re-adding a rule is fine. */
  predicate GoodDelta(s: Tables, d: ConfigSync) {
    && UniqueIDs(ConvertedAll(d.updated)) && UniqueIDs(ConvertedAll(d.added))
    && (forall r :: r in d.added ==> r.id in d.removed || r.id !in s.forwarders)
    && (forall i, j :: 0 <= i < |d.added| && 0 <= j < |d.updated| ==> d.added[i].id != d.updated[j].id)
  }

  lemma RuleMapKeys(ds: seq<RuleSyncData>, id: RuleID)
    ensures id in RuleMap(ConvertedAll(ds)) <==> exists i :: 0 <= i < |ds| && ds[i].id == id
  {
    var rules := ConvertedAll(ds);
    forall i | 0 <= i < |ds|
      ensures ds[i].id in RuleMap(rules)
    {
      assert rules[i] == Converted(ds[i]);
    }
    if id in RuleMap(rules) {
      var i :| 0 <= i < |rules| && rules[i] == RuleMap(rules)[id];
      assert ds[i].id == id;
    }
  }

  lemma AddedIsNew(s: Tables, d: ConfigSync, id: RuleID)
    requires GoodDelta(s, d) && id in RuleMap(ConvertedAll(d.added))
    ensures (id in d.removed || id !in s.forwarders) && id !in RuleMap(ConvertedAll(d.updated))
  {
    RuleMapKeys(d.added, id);
    var i :| 0 <= i < |d.added| && d.added[i].id == id;
    assert d.added[i] in d.added;
    RuleMapKeys(d.updated, id);
  }

  /** Rules that a sync does not mention stay as they are. */
  lemma MergedAt(rules: map<RuleID, Rule>, d: ConfigSync, id: RuleID)
    requires id in rules && id !in d.removed
    requires id !in RuleMap(ConvertedAll(d.updated)) && id !in RuleMap(ConvertedAll(d.added))
    ensures id in Merged(rules, d) && Merged(rules, d)[id] == rules[id]
  {
  }

  /** What still runs once the removed and updated forwarders have stopped. */
  function Untouched(s: Tables, d: ConfigSync): Tables {
    StopAll(Remove(s, set id | id in d.removed), RuleMap(ConvertedAll(d.updated)).Keys)
  }

  lemma AddedDoesNotRun(s: Tables, d: ConfigSync)
    requires GoodDelta(s, d)
    ensures forall id :: id in RuleMap(ConvertedAll(d.added)) ==>
      id !in Untouched(s, d).forwarders && id !in RuleMap(ConvertedAll(d.updated))
  {
    forall id | id in RuleMap(ConvertedAll(d.added))
      ensures id !in Untouched(s, d).forwarders && id !in RuleMap(ConvertedAll(d.updated))
    {
      AddedIsNew(s, d, id);
    }
  }

  lemma UntouchedAt(s: Tables, d: ConfigSync, id: RuleID)
    requires Reconciled(s) && GoodDelta(s, d) && id in Untouched(s, d).forwarders
    ensures InStep(Untouched(s, d).(rules := Merged(s.rules, d)), id)
  {
    AddedDoesNotRun(s, d);
    assert InStep(s, id);
    MergedAt(s.rules, d, id);
  }

  lemma UntouchedSaysRunning(s: Tables, d: ConfigSync, id: RuleID)
    requires Reconciled(s) && id !in RuleMap(ConvertedAll(d.updated))
    ensures SaysRunning(Untouched(s, d), id) <==> id in Untouched(s, d).forwarders
  {
    assert SaysRunning(s, id) <==> id in s.forwarders;
  }

  /** The running forwarders that an incremental sync does not touch are in step with the new list. */
  lemma UntouchedInStep(s: Tables, d: ConfigSync)
    requires Reconciled(s) && GoodDelta(s, d)
    ensures ReconciledBut(Untouched(s, d).(rules := Merged(s.rules, d)), RuleMap(ConvertedAll(d.updated)).Keys)
  {
    var u := Untouched(s, d);
    var t := u.(rules := Merged(s.rules, d));
    forall id | id in t.forwarders
      ensures InStep(t, id)
    {
      UntouchedAt(s, d, id);
    }
    forall id | id !in RuleMap(ConvertedAll(d.updated))
      ensures SaysRunning(t, id) <==> id in t.forwarders
    {
      UntouchedSaysRunning(s, d, id);
    }
    MergedIDs(s.rules, d);
  }

  lemma MergedIDs(rules: map<RuleID, Rule>, d: ConfigSync)
    requires forall id :: id in rules ==> rules[id].id == id
    ensures forall id :: id in Merged(rules, d) ==> Merged(rules, d)[id].id == id
  {
  }

  lemma StartAllKeepsRules(s: Tables, batch: map<RuleID, Rule>, ok: set<RuleID>, rules: map<RuleID, Rule>)
    ensures StartAll(s, batch, ok).(rules := rules) == StartAll(s.(rules := rules), batch, ok)
  {
  }

  lemma IncrementalReconciles(s: Tables, d: ConfigSync, w: World)
    requires Reconciled(s) && GoodDelta(s, d)
    ensures Reconciled(Incremental(s, d, w))
  {
    IncrementalUnique(s, d, w);
    var s0 := Block(s, d.blocked);
    if d.blocked.Some? { StopBlockedReconciles(s, d.blocked.value); }
    UntouchedInStep(s0, d);
    AddedDoesNotRun(s0, d);
    var updated, added := RuleMap(ConvertedAll(d.updated)), RuleMap(ConvertedAll(d.added));
    var rules := Merged(s.rules, d);
    var s1 := Untouched(s0, d);
    assert forall id :: id in updated ==> rules[id] == updated[id];
    StartAllReconciles(s1.(rules := rules), updated.Keys, updated, w.first);
    StartAllKeepsRules(s1, updated, w.first, rules);
    var s2 := StartAll(s1, updated, w.first);
    StartAllReconciles(s2.(rules := rules), {}, added, w.second);
    StartAllKeepsRules(s2, added, w.second, rules);
  }

  // ---- Runs ----

  datatype Event =
    | Hub(d: ConfigSync, w: World)
    | Http(list: seq<Rule>, w: World)
    | RestartRule(id: RuleID, ok: bool)
    | StopRule(id: RuleID)

  function Step(s: Tables, e: Event): Tables {
    match e
    case Hub(d, w) => Configure(s, d, w)
    case Http(list, w) => HttpSyncListed(s, list, w)
    case RestartRule(id, ok) => Restart(s, id, ok)
    case StopRule(id) => StopOne(s, id, true)
  }

  predicate Allowed(s: Tables, e: Event) {
    match e
    case Hub(d, w) => !d.fullSync && d.version > s.version ==> GoodDelta(s, d)
    case Http(list, w) => UniqueIDs(list)
    case _ => true
  }

  lemma FullSyncReconciles(s: Tables, rules: map<RuleID, Rule>, blocked: seq<string>, w: World)
    requires Reconciled(s) && forall id :: id in rules ==> rules[id].id == id
    ensures Reconciled(FullSync(s, rules, blocked, w))
  {
    ResyncReconciles(s, rules, blocked, NowBlocked(s, rules, blocked), w);
  }

  lemma RestartReconciles(s: Tables, id: RuleID, ok: bool)
    requires Reconciled(s)
    ensures Reconciled(Restart(s, id, ok))
  {
    var t := Restart(s, id, ok);
    forall k | k in t.forwarders
      ensures InStep(t, k)
    {
      if k in s.forwarders { assert InStep(s, k); }
    }
    if id in s.forwarders { assert InStep(s, id); }
  }

  lemma StopReconciles(s: Tables, id: RuleID)
    requires Reconciled(s)
    ensures Reconciled(StopOne(s, id, true))
  {
    var t := StopOne(s, id, true);
    forall k | k in t.forwarders
      ensures InStep(t, k)
    {
      assert InStep(s, k);
    }
  }

  lemma VersionReconciles(s: Tables, version: nat)
    requires Reconciled(s)
    ensures Reconciled(s.(version := version))
  {
    var t := s.(version := version);
    forall id | id in t.forwarders
      ensures InStep(t, id)
    {
      assert InStep(s, id);
    }
  }

  lemma StepReconciles(s: Tables, e: Event)
    requires Reconciled(s) && Allowed(s, e)
    ensures Reconciled(Step(s, e))
  {
    match e
    case Hub(d, w) =>
      if d.fullSync {
        var blocked := if d.blocked.Some? then d.blocked.value else [];
        FullSyncReconciles(s, RuleMap(ConvertedAll(d.added)), blocked, w);
        VersionReconciles(FullSync(s, RuleMap(ConvertedAll(d.added)), blocked, w), d.version);
      } else if d.version > s.version {
        IncrementalReconciles(s, d, w);
        VersionReconciles(Incremental(s, d, w), d.version);
      }
    case Http(list, w) =>
      HttpSyncUnique(s, list, w);
      BlockedWasEdited(s, RuleMap(list));
      ResyncReconciles(s, RuleMap(list), s.blocked, {}, w);
    case RestartRule(id, ok) => RestartReconciles(s, id, ok);
    case StopRule(id) => StopReconciles(s, id);
  }

  predicate AllAllowed(s: Tables, es: seq<Event>)
    decreases |es|
  {
    es == [] || (Allowed(s, es[0]) && AllAllowed(Step(s, es[0]), es[1..]))
  }

  function Run(s: Tables, es: seq<Event>): Tables
    decreases |es|
  {
    if es == [] then s else Run(Step(s, es[0]), es[1..])
  }

  /**
   * Reconciliation: over every run of full, incremental and HTTP syncs and of
   * restart and stop commands, with any starts failing, every running forwarder
   * has a current rule, agrees with it on every compared field and uses no
   * blocked protocol, and a status says running exactly when a forwarder runs.
   */
  lemma {:induction false} RunReconciles(s: Tables, es: seq<Event>)
    requires Reconciled(s) && AllAllowed(s, es)
    ensures Reconciled(Run(s, es))
    decreases |es|
  {
    if es != [] {
      StepReconciles(s, es[0]);
      RunReconciles(Step(s, es[0]), es[1..]);
    }
  }

  /** The agent starts from an HTTP sync, or from the rule cache when that fails. */
  lemma StartReconciled(list: seq<Rule>, blocked: seq<string>, ok: set<RuleID>)
    requires UniqueIDs(list)
    ensures Reconciled(INITIAL) && Reconciled(FromCache(INITIAL, list, blocked, ok))
  {
    StartEachIsStartAll(INITIAL.(rules := RuleMap(list), blocked := blocked), list, ok);
    StartAllReconciles(INITIAL.(rules := RuleMap(list), blocked := blocked), {}, RuleMap(list), ok);
  }

  /**
   * Starting a rule keeps the tables reconciled whatever comes of it exactly
   * when the rule is not running yet: why the server must not add a running rule.
   */
  lemma StartKeepsExactly(s: Tables, rule: Rule)
    requires Reconciled(s) && rule.id in s.rules && s.rules[rule.id] == rule
    ensures (forall ok :: Reconciled(StartOne(s, rule, ok))) <==> rule.id !in s.forwarders
  {
    if rule.id in s.forwarders {
      assert SaysRunning(StartOne(s, rule, false), rule.id) <==> false;
      assert !Reconciled(StartOne(s, rule, false));
    } else {
      forall ok: bool
        ensures Reconciled(StartOne(s, rule, ok))
      {
        var t := StartOne(s, rule, ok);
        forall id | id in t.forwarders
          ensures InStep(t, id)
        {
          if id in s.forwarders { assert InStep(s, id); }
        }
      }
    }
  }

  // ---- Full syncs converge ----

  /** What a sync of the whole list makes of one rule. */
  predicate Kept(s: Tables, rules: map<RuleID, Rule>, forbidden: set<RuleID>, id: RuleID) {
    id in s.forwarders && id in rules && id !in forbidden && id !in Edited(s, rules)
  }

  predicate Relaunched(s: Tables, rules: map<RuleID, Rule>, blocked: seq<string>, forbidden: set<RuleID>, w: World, id: RuleID) {
    id in Edited(s, rules) && id !in forbidden && id in w.first && !Blocked(blocked, rules[id].config.protocol)
  }

  predicate Launched(s: Tables, rules: map<RuleID, Rule>, blocked: seq<string>, forbidden: set<RuleID>, w: World, id: RuleID) {
    || Relaunched(s, rules, blocked, forbidden, w, id)
    || (id in rules && !Blocked(blocked, rules[id].config.protocol) && id in w.second)
  }

  lemma StartAllAt(s: Tables, batch: map<RuleID, Rule>, ok: set<RuleID>, id: RuleID)
    requires id !in batch || id !in s.forwarders
    ensures var t := StartAll(s, batch, ok);
      && (id in t.forwarders <==> id in s.forwarders || id in Begun(s.blocked, batch, ok))
      && (id in t.forwarders ==> t.forwarders[id] == if id in s.forwarders then s.forwarders[id] else batch[id])
      && (id in batch ==> id in t.status && t.status[id] == if id in t.forwarders then RUNNING else FAILED)
      && (id !in batch ==> (id in t.status <==> id in s.status) && (id in t.status ==> t.status[id] == s.status[id]))
  {
  }

  lemma RestartedAt(s: Tables, rules: map<RuleID, Rule>, blocked: seq<string>, forbidden: set<RuleID>, w: World, id: RuleID)
    requires forbidden <= rules.Keys
    ensures var t := Restarted(s, rules, blocked, forbidden, w);
      && (id in t.forwarders <==> Kept(s, rules, forbidden, id) || Relaunched(s, rules, blocked, forbidden, w, id))
      && (id in t.forwarders ==> t.forwarders[id] == if Kept(s, rules, forbidden, id) then s.forwarders[id] else rules[id])
      && (Reconciled(s) && id in t.forwarders ==> SaysRunning(t, id))
  {
    var s1 := StopOutdated(s, rules, forbidden).(rules := rules, blocked := blocked);
    assert id in s1.forwarders <==> Kept(s, rules, forbidden, id);
    StartAllAt(s1, Pick(rules, Edited(s, rules) - forbidden), w.first, id);
  }

  lemma ResyncAt(s: Tables, rules: map<RuleID, Rule>, blocked: seq<string>, forbidden: set<RuleID>, w: World, id: RuleID)
    requires forbidden <= rules.Keys
    ensures var t := Resync(s, rules, blocked, forbidden, w);
      && (id in t.forwarders <==> Kept(s, rules, forbidden, id) || Launched(s, rules, blocked, forbidden, w, id))
      && (id in t.forwarders ==> t.forwarders[id] == if Kept(s, rules, forbidden, id) then s.forwarders[id] else rules[id])
  {
    RestartedAt(s, rules, blocked, forbidden, w, id);
    var s2 := Restarted(s, rules, blocked, forbidden, w);
    StartAllAt(s2, Pick(rules, rules.Keys - s2.forwarders.Keys), w.second, id);
  }

  /** After a sync of the whole list every listed rule either runs or is reported as failed. */
  lemma ResyncReports(s: Tables, rules: map<RuleID, Rule>, blocked: seq<string>, forbidden: set<RuleID>, w: World, id: RuleID)
    requires Reconciled(s) && id in rules && forbidden <= rules.Keys
    ensures var t := Resync(s, rules, blocked, forbidden, w);
      id in t.status && t.status[id] == if id in t.forwarders then RUNNING else FAILED
  {
    RestartedAt(s, rules, blocked, forbidden, w, id);
    var s2 := Restarted(s, rules, blocked, forbidden, w);
    StartAllAt(s2, Pick(rules, rules.Keys - s2.forwarders.Keys), w.second, id);
  }

  lemma RunningMayRun(s: Tables, id: RuleID)
    requires Reconciled(s)
    ensures id in s.forwarders ==> id in s.rules && !Blocked(s.blocked, s.rules[id].config.protocol)
  {
    if id in s.forwarders { assert InStep(s, id); }
  }

  /** After a full sync whose starts succeed, exactly the unblocked rules run. */
  lemma FullSyncConverges(s: Tables, rules: map<RuleID, Rule>, blocked: seq<string>, w: World, id: RuleID)
    requires Reconciled(s) && (forall k :: k in rules ==> rules[k].id == k) && rules.Keys <= w.second
    ensures id in FullSync(s, rules, blocked, w).forwarders <==>
      id in rules && !Blocked(blocked, rules[id].config.protocol)
  {
    FullSyncReconciles(s, rules, blocked, w);
    RunningMayRun(FullSync(s, rules, blocked, w), id);
    ResyncAt(s, rules, blocked, NowBlocked(s, rules, blocked), w, id);
  }

  /** Every unblocked rule runs. */
  predicate Complete(s: Tables) {
    forall id :: id in s.rules && !Blocked(s.blocked, s.rules[id].config.protocol) ==> id in s.forwarders
  }

  /** Every rule runs or is reported as failed. */
  predicate Reported(s: Tables) {
    forall id :: id in s.rules ==> id in s.status && s.status[id] == if id in s.forwarders then RUNNING else FAILED
  }

  /** Where nothing is outdated, a full sync only tries the rules that do not run. */
  lemma SameFullSync(s: Tables, w: World)
    requires Reconciled(s)
    ensures FullSync(s, s.rules, s.blocked, w) == StartIdle(s, w.second)
  {
    BlockedWasEdited(s, s.rules);
    assert Edited(s, s.rules) == {} && NowBlocked(s, s.rules, s.blocked) == {};
    assert Gone(s, s.rules) == {} by {
      forall id | id in s.forwarders
        ensures id in s.rules
      {
        assert InStep(s, id);
      }
    }
    var s1 := StopOutdated(s, s.rules, {});
    assert s1.forwarders == s.forwarders && s1.status == s.status;
    assert Pick(s.rules, {}) == map[];
    StartAllNone(s, w.first);
  }

  lemma NothingNew<K, V>(a: map<K, V>, b: map<K, V>)
    requires forall k :: k in b ==> k in a && a[k] == b[k]
    ensures a + b == a
  {
    SameMap(a + b, a);
  }

  lemma CompleteIsFixed(s: Tables, w: World)
    requires Reconciled(s) && Reported(s) && Complete(s)
    ensures FullSync(s, s.rules, s.blocked, w) == s
  {
    SameFullSync(s, w);
    StartIdleFixed(s, w.second);
  }

  lemma StartIdleFixed(s: Tables, ok: set<RuleID>)
    requires Reported(s) && Complete(s)
    ensures StartIdle(s, ok) == s
  {
    var idle := Pick(s.rules, s.rules.Keys - s.forwarders.Keys);
    assert Begun(s.blocked, idle, ok) == map[];
    NothingNew(s.forwarders, map[]);
    NothingNew(s.status, Outcomes(idle.Keys, {}));
  }

  lemma IncompleteMoves(s: Tables) returns (w: World)
    requires Reconciled(s) && !Complete(s)
    ensures FullSync(s, s.rules, s.blocked, w) != s
  {
    var id :| id in s.rules && !Blocked(s.blocked, s.rules[id].config.protocol) && id !in s.forwarders;
    w := World({}, {id});
    ResyncAt(s, s.rules, s.blocked, NowBlocked(s, s.rules, s.blocked), w, id);
  }

  /**
   * Repeating a full sync changes nothing, whatever starts would do, exactly
   * when the first one got every unblocked rule running.
   */
  lemma FullSyncIdempotent(s: Tables, rules: map<RuleID, Rule>, blocked: seq<string>, w: World)
    requires Reconciled(s) && forall id :: id in rules ==> rules[id].id == id
    ensures var t := FullSync(s, rules, blocked, w);
      (forall v :: FullSync(t, rules, blocked, v) == t) <==> Complete(t)
  {
    var t := FullSync(s, rules, blocked, w);
    FullSyncReconciles(s, rules, blocked, w);
    forall id | id in rules
      ensures id in t.status && t.status[id] == if id in t.forwarders then RUNNING else FAILED
    {
      ResyncReports(s, rules, blocked, NowBlocked(s, rules, blocked), w, id);
    }
    assert t.rules == rules && t.blocked == blocked;
    if Complete(t) {
      forall v
        ensures FullSync(t, rules, blocked, v) == t
      {
        CompleteIsFixed(t, v);
      }
    } else {
      var v := IncompleteMoves(t);
    }
  }

  /**
   * The fallback sync does the same as a hub sync with the list in force, even
   * though it never looks at blocked protocols before it starts a forwarder.
   */
  lemma HttpSyncAgrees(s: Tables, rules: map<RuleID, Rule>, w: World, id: RuleID)
    requires Reconciled(s)
    ensures var a, b := HttpSync(s, rules, w), FullSync(s, rules, s.blocked, w);
      && (id in a.forwarders <==> id in b.forwarders)
      && (id in a.forwarders ==> a.forwarders[id] == b.forwarders[id])
      && (id in rules ==> id in a.status && id in b.status && a.status[id] == b.status[id])
  {
    BlockedWasEdited(s, rules);
    var forbidden := NowBlocked(s, rules, s.blocked);
    assert Kept(s, rules, {}, id) <==> Kept(s, rules, forbidden, id);
    assert Launched(s, rules, s.blocked, {}, w, id) <==> Launched(s, rules, s.blocked, forbidden, w, id);
    ResyncAt(s, rules, s.blocked, {}, w, id);
    ResyncAt(s, rules, s.blocked, forbidden, w, id);
    if id in rules {
      ResyncReports(s, rules, s.blocked, {}, w, id);
      ResyncReports(s, rules, s.blocked, forbidden, w, id);
    }
  }

  // ---- What reconciled does not say ----

  /**
   * A forwarder that a full sync leaves running keeps the rule it was started
   * with. That is the current rule exactly when the modelled fields outside the
   * comparison are the same too; the health-check settings it was built with are
   * not compared either.
   */
  lemma KeptForwarderIsCurrentExactly(s: Tables, rules: map<RuleID, Rule>, blocked: seq<string>, w: World, id: RuleID)
    requires Reconciled(s) && id in s.forwarders && id in rules && rules[id].id == id
    requires !Changed(s.rules[id], rules[id]) && !Blocked(blocked, rules[id].config.protocol)
    ensures var t := FullSync(s, rules, blocked, w);
      && id in t.forwarders && t.forwarders[id] == s.forwarders[id]
      && (t.forwarders[id] == rules[id] <==> s.forwarders[id].rest == rules[id].rest)
  {
    var forbidden := NowBlocked(s, rules, blocked);
    assert InStep(s, id);
    assert Kept(s, rules, forbidden, id);
    ResyncAt(s, rules, blocked, forbidden, w, id);
    SameRule(s.forwarders[id], rules[id]);
  }

  lemma SameRule(a: Rule, b: Rule)
    requires a.id == b.id && !Changed(a, b)
    ensures a == b <==> a.rest == b.rest
  {
  }

  /**
   * The next sync of a whole list undoes a stop command exactly for the rules it
   * lists whose protocol is not blocked and whose start succeeds, from the hub
   * as over HTTP; the forwarder then has the rule of that list.
   */
  lemma StopIsForgotten(s: Tables, id: RuleID, rules: map<RuleID, Rule>, blocked: seq<string>, w: World)
    ensures var t := StopOne(s, id, true);
      var hub, http := FullSync(t, rules, blocked, w), HttpSync(t, rules, w);
      && (id in hub.forwarders <==> id in rules && !Blocked(blocked, rules[id].config.protocol) && id in w.second)
      && (id in http.forwarders <==> id in rules && !Blocked(s.blocked, rules[id].config.protocol) && id in w.second)
      && (id in hub.forwarders ==> hub.forwarders[id] == rules[id])
      && (id in http.forwarders ==> http.forwarders[id] == rules[id])
  {
    var t := StopOne(s, id, true);
    assert !Kept(t, rules, NowBlocked(t, rules, blocked), id) && !Kept(t, rules, {}, id);
    ResyncAt(t, rules, blocked, NowBlocked(t, rules, blocked), w, id);
    ResyncAt(t, rules, t.blocked, {}, w, id);
  }

  // ---- A stale forwarder, from the start ----

  const PLAIN := Config("", 0, 0, 0, "10.0.0.1", 80, "", 8080, "", "tcp", "", false, "", "", "")

  function Typed(id: RuleID, ruleType: string): RuleSyncData {
    RuleSyncData(id, PLAIN, [], Rest(ruleType, "", "", "", "", "", "", ""))
  }

  function Snapshot(version: nat, rule: RuleSyncData): ConfigSync {
    ConfigSync(version, true, [rule], [], [], None)
  }

  lemma OneRule(d: RuleSyncData)
    ensures RuleMap(ConvertedAll([d])) == map[d.id := Converted(d)]
  {
    assert ConvertedAll([d]) == [Converted(d)];
    assert [Converted(d)][..0] == [];
  }

  lemma FirstSnapshot(id: RuleID, ruleType: string, w: World)
    requires id in w.second
    ensures var s := FullSync(INITIAL, map[id := Converted(Typed(id, ruleType))], [], w);
      && Reconciled(s) && s.rules == map[id := Converted(Typed(id, ruleType))]
      && id in s.forwarders && s.forwarders[id] == Converted(Typed(id, ruleType))
  {
    var rules := map[id := Converted(Typed(id, ruleType))];
    StartReconciled([], [], {});
    FullSyncReconciles(INITIAL, rules, [], w);
    ResyncAt(INITIAL, rules, [], NowBlocked(INITIAL, rules, []), w, id);
  }

  /**
   * So a rule whose type changed may go on in a forwarder of the old type: two
   * full syncs from the start, the second with another type for the same rule.
   */
  lemma StaleForwarder(id: RuleID, oldType: string, newType: string, w: World, v: World)
    requires id in w.second && oldType != newType
    ensures var s := Configure(INITIAL, Snapshot(1, Typed(id, oldType)), w);
      var t := Configure(s, Snapshot(2, Typed(id, newType)), v);
      && id in t.forwarders && id in t.rules
      && t.forwarders[id].rest.ruleType == oldType && t.rules[id].rest.ruleType == newType
  {
    OneRule(Typed(id, oldType));
    OneRule(Typed(id, newType));
    FirstSnapshot(id, oldType, w);
    var s := Configure(INITIAL, Snapshot(1, Typed(id, oldType)), w);
    VersionReconciles(FullSync(INITIAL, map[id := Converted(Typed(id, oldType))], [], w), 1);
    KeptForwarderIsCurrentExactly(s, map[id := Converted(Typed(id, newType))], [], v, id);
  }
}
