/** What each sync and command makes of one single rule: does it run, with which settings, and what is said of it. */
module RuleEffects {
  import opened Rules
  import opened RuleState
  import opened RuleTheorems

  /** Neither the forwarder nor the status of this rule is touched. */
  predicate SameAt(s: Tables, t: Tables, id: RuleID) {
    && (id in t.forwarders <==> id in s.forwarders)
    && (id in t.forwarders ==> t.forwarders[id] == s.forwarders[id])
    && (id in t.status <==> id in s.status)
    && (id in t.status ==> t.status[id] == s.status[id])
  }

  /** The rule has been tried: it runs as given and says so, or it does not run and is reported as failed. */
  predicate TriedAt(t: Tables, id: RuleID, rule: Rule, runs: bool) {
    && (id in t.forwarders <==> runs)
    && (runs ==> t.forwarders[id] == rule)
    && id in t.status && t.status[id] == if runs then RUNNING else FAILED
  }

  // ---- Blocked protocols ----

  /** The current rule of this forwarder has a protocol that the list forbids. */
  predicate Hit(s: Tables, list: seq<string>, id: RuleID) {
    id in s.forwarders && id in s.rules && Blocked(list, s.rules[id].config.protocol)
  }

  /**
   * A new list of blocked protocols stops exactly the running forwarders whose
   * current rule it blocks, and reports exactly those as failed. Every other rule
   * keeps its forwarder and its status.
   */
  lemma BlockingExactly(s: Tables, list: seq<string>, id: RuleID)
    ensures var t := StopBlocked(s.(blocked := list));
      && t.rules == s.rules && t.blocked == list && t.version == s.version
      && if Hit(s, list, id) then id !in t.forwarders && id in t.status && t.status[id] == FAILED else SameAt(s, t, id)
  {
  }

  // ---- Syncs of the whole list ----

  /** The sync keeps the forwarder as it is: same compared fields in the old and the new rule. */
  predicate Unchanged(s: Tables, rules: map<RuleID, Rule>, id: RuleID) {
    id in s.forwarders && id in s.rules && id in rules && !Changed(s.rules[id], rules[id])
  }

  /** Some attempt to start the rule goes well; only a running forwarder gets the attempt of a restart. */
  predicate StartsSomehow(s: Tables, w: World, id: RuleID) {
    id in w.second || (id in s.forwarders && id in w.first)
  }

  lemma StatusOfUnlisted(s: Tables, rules: map<RuleID, Rule>, blocked: seq<string>, forbidden: set<RuleID>, w: World, id: RuleID)
    requires id !in rules && forbidden <= rules.Keys
    ensures var t := Resync(s, rules, blocked, forbidden, w);
      && (id in t.status <==> id in s.status && id !in s.forwarders)
      && (id in t.status ==> t.status[id] == s.status[id])
  {
    var s2 := Restarted(s, rules, blocked, forbidden, w);
    StartAllAt(StopOutdated(s, rules, forbidden).(rules := rules, blocked := blocked), Pick(rules, Edited(s, rules) - forbidden), w.first, id);
    StartAllAt(s2, Pick(rules, rules.Keys - s2.forwarders.Keys), w.second, id);
  }

  /** A sync of the whole list keeps what is not blocked and unchanged, and launches what is not blocked and can be started. */
  lemma KeptOrLaunched(s: Tables, rules: map<RuleID, Rule>, blocked: seq<string>, forbidden: set<RuleID>, w: World, id: RuleID)
    requires id in rules && (id in s.forwarders ==> id in s.rules)
    requires forbidden <= NowBlocked(s, rules, blocked) <= forbidden + Edited(s, rules)
    ensures var may := !Blocked(blocked, rules[id].config.protocol);
      && (Kept(s, rules, forbidden, id) <==> may && Unchanged(s, rules, id))
      && (Kept(s, rules, forbidden, id) || Launched(s, rules, blocked, forbidden, w, id)
          <==> may && (Unchanged(s, rules, id) || StartsSomehow(s, w, id)))
  {
    assert id in Edited(s, rules) <==> id in s.forwarders && !Unchanged(s, rules, id);
    assert id in NowBlocked(s, rules, blocked) <==> id in s.forwarders && Blocked(blocked, rules[id].config.protocol);
  }

  lemma ResyncListed(s: Tables, rules: map<RuleID, Rule>, blocked: seq<string>, forbidden: set<RuleID>, w: World, id: RuleID)
    requires Reconciled(s) && id in rules
    requires forbidden <= NowBlocked(s, rules, blocked) <= forbidden + Edited(s, rules)
    ensures var runs := !Blocked(blocked, rules[id].config.protocol) && (Unchanged(s, rules, id) || StartsSomehow(s, w, id));
      TriedAt(Resync(s, rules, blocked, forbidden, w), id, if Unchanged(s, rules, id) then s.forwarders[id] else rules[id], runs)
  {
    if id in s.forwarders { assert InStep(s, id); }
    KeptOrLaunched(s, rules, blocked, forbidden, w, id);
    ResyncAt(s, rules, blocked, forbidden, w, id);
    ResyncReports(s, rules, blocked, forbidden, w, id);
  }

  /** Everything a sync of the whole list says of one rule. */
  predicate Resynced(s: Tables, t: Tables, w: World, id: RuleID) {
    && (id in t.rules ==>
          var runs := !Blocked(t.blocked, t.rules[id].config.protocol) && (Unchanged(s, t.rules, id) || StartsSomehow(s, w, id));
          TriedAt(t, id, if Unchanged(s, t.rules, id) then s.forwarders[id] else t.rules[id], runs))
    && (id !in t.rules ==> id !in t.forwarders && (id in t.status <==> id in s.status && id !in s.forwarders))
    && (id !in t.rules && id in t.status ==> t.status[id] == s.status[id])
  }

  lemma ResyncSplit(s: Tables, rules: map<RuleID, Rule>, blocked: seq<string>, forbidden: set<RuleID>, w: World, id: RuleID)
    requires Reconciled(s)
    requires forbidden <= NowBlocked(s, rules, blocked) <= forbidden + Edited(s, rules)
    ensures var t := Resync(s, rules, blocked, forbidden, w);
      t.rules == rules && t.blocked == blocked && t.version == s.version && Resynced(s, t, w, id)
  {
    if id in rules {
      ResyncListed(s, rules, blocked, forbidden, w, id);
    } else {
      ResyncAt(s, rules, blocked, forbidden, w, id);
      StatusOfUnlisted(s, rules, blocked, forbidden, w, id);
    }
  }

  /**
   * A full sync from the hub, rule by rule. The message's rules, blocked list and
   * version are in force, and without a blocked list nothing is blocked. A listed
   * rule runs if and only if it is not blocked and either ran before without a
   * compared change, and then goes on as it is, or some start of it goes well.
   * Unlisted forwarders are gone with their statuses; other statuses stay.
   */
  lemma FullSyncExactly(s: Tables, d: ConfigSync, w: World, id: RuleID)
    requires Reconciled(s) && d.fullSync
    ensures var t := Configure(s, d, w);
      && t.rules == RuleMap(ConvertedAll(d.added)) && t.version == d.version
      && t.blocked == (if d.blocked.Some? then d.blocked.value else [])
      && Resynced(s, t, w, id)
  {
    var rules := RuleMap(ConvertedAll(d.added));
    var blocked := if d.blocked.Some? then d.blocked.value else [];
    ResyncSplit(s, rules, blocked, NowBlocked(s, rules, blocked), w, id);
  }

  /** The same of a sync over HTTP, which leaves the blocked list and the version alone. */
  lemma HttpSyncExactly(s: Tables, list: seq<Rule>, w: World, id: RuleID)
    requires Reconciled(s) && UniqueIDs(list)
    ensures var t := HttpSyncListed(s, list, w);
      && t.rules == RuleMap(list) && t.blocked == s.blocked && t.version == s.version
      && Resynced(s, t, w, id)
  {
    HttpSyncUnique(s, list, w);
    BlockedWasEdited(s, RuleMap(list));
    ResyncSplit(s, RuleMap(list), s.blocked, {}, w, id);
  }

  // ---- Incremental syncs ----

  /** The blocked list in force after the message. */
  function InForce(s: Tables, d: ConfigSync): seq<string> {
    if d.blocked.Some? then d.blocked.value else s.blocked
  }

  /** Before any start: a removed rule is gone with its status, one that a new list forbids has failed, others stay. */
  predicate StoppedAt(s: Tables, t: Tables, d: ConfigSync, id: RuleID) {
    if id in d.removed then id !in t.forwarders && id !in t.status
    else if d.blocked.Some? && Hit(s, d.blocked.value, id) then id !in t.forwarders && id in t.status && t.status[id] == FAILED
    else SameAt(s, t, id)
  }

  /** What runs and what is said once an incremental sync has stopped what it stops. */
  function Cleared(s: Tables, d: ConfigSync): Tables {
    Remove(Block(s, d.blocked), set k | k in d.removed)
  }

  lemma ClearedAt(s: Tables, d: ConfigSync, id: RuleID)
    ensures Cleared(s, d).blocked == InForce(s, d) && StoppedAt(s, Cleared(s, d), d, id)
  {
    if d.blocked.Some? { BlockingExactly(s, d.blocked.value, id); }
  }

  /** What one batch of starts does to one rule. */
  lemma BatchAt(s: Tables, batch: map<RuleID, Rule>, ok: set<RuleID>, id: RuleID)
    ensures var t := StartAll(s, batch, ok);
      && t.blocked == s.blocked
      && (id in batch && id !in s.forwarders ==>
            TriedAt(t, id, batch[id], id in ok && !Blocked(s.blocked, batch[id].config.protocol)))
      && (id !in batch ==> SameAt(s, t, id))
  {
  }

  /** The two batches of starts of an incremental sync, behind the stops. */
  function Batched(s: Tables, updated: map<RuleID, Rule>, added: map<RuleID, Rule>, w: World): Tables {
    StartAll(StartAll(StopAll(s, updated.Keys), updated, w.first), added, w.second)
  }

  lemma BatchedAt(s: Tables, updated: map<RuleID, Rule>, added: map<RuleID, Rule>, w: World, id: RuleID)
    requires id in added ==> id !in s.forwarders && id !in updated
    ensures var t := Batched(s, updated, added, w);
      && t.blocked == s.blocked
      && (id in added ==> TriedAt(t, id, added[id], id in w.second && !Blocked(s.blocked, added[id].config.protocol)))
      && (id in updated ==> TriedAt(t, id, updated[id], id in w.first && !Blocked(s.blocked, updated[id].config.protocol)))
      && (id !in added && id !in updated ==> SameAt(s, t, id))
  {
    var s2 := StopAll(s, updated.Keys);
    BatchAt(s2, updated, w.first, id);
    BatchAt(StartAll(s2, updated, w.first), added, w.second, id);
  }

  /** Everything an incremental sync says of one rule. */
  predicate Synchronised(s: Tables, t: Tables, d: ConfigSync, w: World, id: RuleID) {
    var added, updated := RuleMap(ConvertedAll(d.added)), RuleMap(ConvertedAll(d.updated));
    && t.blocked == InForce(s, d)
    && (id in added ==> TriedAt(t, id, added[id], id in w.second && !Blocked(t.blocked, added[id].config.protocol)))
    && (id in updated ==> TriedAt(t, id, updated[id], id in w.first && !Blocked(t.blocked, updated[id].config.protocol)))
    && (id !in added && id !in updated ==> StoppedAt(s, t, d, id))
  }

  lemma BatchedSynchronises(s: Tables, d: ConfigSync, w: World, id: RuleID)
    requires id in RuleMap(ConvertedAll(d.added)) ==>
      (id in d.removed || id !in s.forwarders) && id !in RuleMap(ConvertedAll(d.updated))
    ensures Synchronised(s, Batched(Cleared(s, d), RuleMap(ConvertedAll(d.updated)), RuleMap(ConvertedAll(d.added)), w), d, w, id)
  {
    var added, updated := RuleMap(ConvertedAll(d.added)), RuleMap(ConvertedAll(d.updated));
    ClearedAt(s, d, id);
    BatchedAt(Cleared(s, d), updated, added, w, id);
    if id !in added && id !in updated {
      StoppedThenSame(s, Cleared(s, d), Batched(Cleared(s, d), updated, added, w), d, id);
    }
  }

  lemma RulesAndVersion(s: Tables, t: Tables, d: ConfigSync, w: World, id: RuleID, rules: map<RuleID, Rule>, version: nat)
    requires Synchronised(s, t, d, w, id)
    ensures Synchronised(s, t.(rules := rules).(version := version), d, w, id)
  {
  }

  lemma ConfigureIsBatched(s: Tables, d: ConfigSync, w: World)
    requires GoodDelta(s, d) && !d.fullSync && s.version < d.version
    ensures Configure(s, d, w)
         == Batched(Cleared(s, d), RuleMap(ConvertedAll(d.updated)), RuleMap(ConvertedAll(d.added)), w)
              .(rules := Merged(s.rules, d)).(version := d.version)
  {
    IncrementalUnique(s, d, w);
  }

  lemma StoppedThenSame(s: Tables, t: Tables, u: Tables, d: ConfigSync, id: RuleID)
    requires StoppedAt(s, t, d, id) && SameAt(t, u, id)
    ensures StoppedAt(s, u, d, id)
  {
  }

  /**
   * An incremental sync, rule by rule: an updated rule is stopped and tried with
   * its new settings, an added one is tried, a removed one is gone with its
   * status, one that a new blocked list forbids is stopped and reported as
   * failed, and every other rule keeps its forwarder and its status.
   */
  lemma IncrementalExactly(s: Tables, d: ConfigSync, w: World, id: RuleID)
    requires GoodDelta(s, d) && !d.fullSync && s.version < d.version
    ensures Synchronised(s, Configure(s, d, w), d, w, id) && Configure(s, d, w).version == d.version
  {
    if id in RuleMap(ConvertedAll(d.added)) { AddedIsNew(s, d, id); }
    BatchedSynchronises(s, d, w, id);
    var t := Batched(Cleared(s, d), RuleMap(ConvertedAll(d.updated)), RuleMap(ConvertedAll(d.added)), w);
    RulesAndVersion(s, t, d, w, id, Merged(s.rules, d), d.version);
    ConfigureIsBatched(s, d, w);
  }

  /** The rules after an incremental sync: updated over added over those that were there and not removed. */
  lemma MergedExactly(rules: map<RuleID, Rule>, d: ConfigSync, id: RuleID)
    ensures var m := Merged(rules, d);
      var added, updated := RuleMap(ConvertedAll(d.added)), RuleMap(ConvertedAll(d.updated));
      && (id in m <==> id in updated || id in added || (id in rules && id !in d.removed))
      && (id in m ==> m[id] == if id in updated then updated[id] else if id in added then added[id] else rules[id])
  {
  }

  // ---- Commands and start-up ----

  /** A restart command stops and tries the one rule, with the settings it has now, and touches no other. */
  lemma RestartExactly(s: Tables, id: RuleID, ok: bool, other: RuleID)
    requires (forall k :: k in s.rules ==> s.rules[k].id == k) && other != id
    ensures var t := Restart(s, id, ok);
      && t.rules == s.rules && t.blocked == s.blocked && t.version == s.version
      && (id in s.rules ==> TriedAt(t, id, s.rules[id], ok && !Blocked(s.blocked, s.rules[id].config.protocol)))
      && (id !in s.rules ==> id !in t.forwarders && t.status == s.status)
      && SameAt(s, t, other)
  {
  }

  /** From the cache: its rules and its blocked list are in force, and each of its rules is tried. */
  lemma FromCacheExactly(list: seq<Rule>, blocked: seq<string>, ok: set<RuleID>, id: RuleID)
    requires UniqueIDs(list)
    ensures var t := FromCache(INITIAL, list, blocked, ok);
      && t.rules == RuleMap(list) && t.blocked == blocked && t.version == 0
      && (id in t.rules ==> TriedAt(t, id, t.rules[id], id in ok && !Blocked(blocked, t.rules[id].config.protocol)))
      && (id !in t.rules ==> id !in t.forwarders && id !in t.status)
  {
    var s := INITIAL.(rules := RuleMap(list), blocked := blocked);
    StartEachIsStartAll(s, list, ok);
    BatchAt(s, RuleMap(list), ok, id);
  }
}
