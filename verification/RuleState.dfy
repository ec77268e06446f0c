/**
 * What each sync and command does to the agent's rules, forwarders, blocked
 * protocols and rule statuses, stated without loops and without an order.
 */
module RuleState {
  import opened Rules

  datatype SyncStatus = Synced | Pending | SyncFailed

  datatype RunStatus = Running | Stopped | Starting | RunError

  datatype Status = Status(sync: SyncStatus, run: RunStatus)

  const RUNNING := Status(Synced, Running)
  const STOPPED := Status(Synced, Stopped)
  const STARTING := Status(Pending, Starting)
  const FAILED := Status(SyncFailed, RunError)

  /** forwarders maps each running forwarder to the rule it was started with. */
  datatype Tables = Tables(
    rules: map<RuleID, Rule>,
    forwarders: map<RuleID, Rule>,
    blocked: seq<string>,
    status: map<RuleID, Status>,
    version: nat)

  const INITIAL := Tables(map[], map[], [], map[], 0)

  datatype Option<+T> = None | Some(value: T)

  datatype ConfigSync = ConfigSync(
    version: nat,
    fullSync: bool,
    added: seq<RuleSyncData>,
    updated: seq<RuleSyncData>,
    removed: seq<RuleID>,
    blocked: Option<seq<string>>)  // None when the message has no such field

  /**
   * Whether a start succeeds is up to the outside world. A sync tries twice: the
   * rules in first start when they are restarted or updated, those in second
   * when they are started as new.
   */
  datatype World = World(first: set<RuleID>, second: set<RuleID>)

  // ---- One rule ----

  predicate Starts(s: Tables, rule: Rule, ok: bool) {
    ok && !Blocked(s.blocked, rule.config.protocol)
  }

  function StartOne(s: Tables, rule: Rule, ok: bool): Tables {
    s.(forwarders := if Starts(s, rule, ok) then s.forwarders[rule.id := rule] else s.forwarders,
       status := s.status[rule.id := if Starts(s, rule, ok) then RUNNING else FAILED])
  }

  function StopOne(s: Tables, id: RuleID, updateStatus: bool): Tables {
    s.(forwarders := s.forwarders - {id}, status := if updateStatus then s.status[id := STOPPED] else s.status)
  }

  // ---- Many rules ----

  function Pick(rules: map<RuleID, Rule>, ids: set<RuleID>): map<RuleID, Rule> {
    rules - (rules.Keys - ids)
  }

  /** The forwarders that a batch of starts brings up, and the statuses it leaves. */
  function Begun(blocked: seq<string>, batch: map<RuleID, Rule>, ok: set<RuleID>): map<RuleID, Rule> {
    batch - (set id | id in batch && !(id in ok && !Blocked(blocked, batch[id].config.protocol)))
  }

  function Verdict(id: RuleID, batch: set<RuleID>, begun: set<RuleID>): Status
    requires id in batch
  {
    if id in begun then RUNNING else FAILED
  }

  function Outcomes(batch: set<RuleID>, begun: set<RuleID>): map<RuleID, Status> {
    map id | id in batch :: Verdict(id, batch, begun)
  }

  function StartAll(s: Tables, batch: map<RuleID, Rule>, ok: set<RuleID>): Tables {
    var begun := Begun(s.blocked, batch, ok);
    s.(forwarders := s.forwarders + begun, status := s.status + Outcomes(batch.Keys, begun.Keys))
  }

  function StopAll(s: Tables, ids: set<RuleID>): Tables {
    s.(forwarders := s.forwarders - ids)
  }

  lemma SameMap<K, V>(a: map<K, V>, b: map<K, V>)
    requires a.Keys == b.Keys && forall k :: k in a ==> a[k] == b[k]
    ensures a == b
  {
  }

  lemma MergeNext<K, V>(a: map<K, V>, b: map<K, V>, k: K, v: V)
    ensures a + b[k := v] == (a + b)[k := v]
  {
    SameMap(a + b[k := v], (a + b)[k := v]);
  }

  /** Dropping k before or after it is overwritten, or merged with what has no k, comes to the same. */
  lemma DropNext<K, V>(a: map<K, V>, ids: set<K>, b: map<K, V>, k: K)
    requires k !in b
    ensures (a - (ids + {k})) + b == ((a - ids) + b) - {k}
  {
    SameMap((a - (ids + {k})) + b, ((a - ids) + b) - {k});
  }

  lemma BegunNext(blocked: seq<string>, batch: map<RuleID, Rule>, rule: Rule, ok: set<RuleID>)
    requires rule.id !in batch
    ensures var b := batch[rule.id := rule];
      && Begun(blocked, b, ok) == (if rule.id in ok && !Blocked(blocked, rule.config.protocol)
                                   then Begun(blocked, batch, ok)[rule.id := rule] else Begun(blocked, batch, ok))
      && Outcomes(b.Keys, Begun(blocked, b, ok).Keys)
         == Outcomes(batch.Keys, Begun(blocked, batch, ok).Keys)
              [rule.id := if rule.id in Begun(blocked, b, ok) then RUNNING else FAILED]
  {
    var b := batch[rule.id := rule];
    var x := Begun(blocked, batch, ok);
    var y := if rule.id in ok && !Blocked(blocked, rule.config.protocol) then x[rule.id := rule] else x;
    SameMap(Begun(blocked, b, ok), y);
    SameMap(Outcomes(b.Keys, y.Keys), Outcomes(batch.Keys, x.Keys)[rule.id := if rule.id in y then RUNNING else FAILED]);
  }

  lemma StartAllNone(s: Tables, ok: set<RuleID>)
    ensures StartAll(s, map[], ok) == s
  {
    assert Begun(s.blocked, map[], ok) == map[] && Outcomes({}, {}) == map[];
    assert s.forwarders + map[] == s.forwarders;
    assert s.status + map[] == s.status;
  }

  lemma StartAllNext(s: Tables, batch: map<RuleID, Rule>, rule: Rule, ok: set<RuleID>)
    requires rule.id !in batch
    ensures StartAll(s, batch[rule.id := rule], ok) == StartOne(StartAll(s, batch, ok), rule, rule.id in ok)
  {
    BegunNext(s.blocked, batch, rule, ok);
    var begun := Begun(s.blocked, batch, ok);
    MergeNext(s.forwarders, begun, rule.id, rule);
    MergeNext(s.status, Outcomes(batch.Keys, begun.Keys), rule.id, if Starts(s, rule, rule.id in ok) then RUNNING else FAILED);
  }

  /** Stopping and starting the rules of a batch one by one is stopping all, then starting all. */
  lemma RestartNext(s: Tables, batch: map<RuleID, Rule>, rule: Rule, ok: set<RuleID>)
    requires rule.id !in batch
    ensures var b := batch[rule.id := rule];
      StartAll(StopAll(s, b.Keys), b, ok)
      == StartOne(StopOne(StartAll(StopAll(s, batch.Keys), batch, ok), rule.id, false), rule, rule.id in ok)
  {
    var b := batch[rule.id := rule];
    StartAllNext(StopAll(s, b.Keys), batch, rule, ok);
    DropNext(s.forwarders, batch.Keys, Begun(s.blocked, batch, ok), rule.id);
    assert b.Keys == batch.Keys + {rule.id};
  }

  // ---- One rule after the other, whatever the list ----

  function StartEach(s: Tables, list: seq<Rule>, ok: set<RuleID>): Tables {
    if list == [] then s
    else
      var last := list[|list| - 1];
      StartOne(StartEach(s, list[..|list| - 1], ok), last, last.id in ok)
  }

  function RestartEach(s: Tables, list: seq<Rule>, ok: set<RuleID>): Tables {
    if list == [] then s
    else
      var last := list[|list| - 1];
      StartOne(StopOne(RestartEach(s, list[..|list| - 1], ok), last.id, false), last, last.id in ok)
  }

  /** The rules of a list that are not among the existing ones. */
  function Missing(list: seq<Rule>, existing: set<RuleID>): (m: seq<Rule>)
    ensures forall i :: 0 <= i < |m| ==> m[i] in list && m[i].id !in existing
  {
    if list == [] then []
    else
      var last := list[|list| - 1];
      Missing(list[..|list| - 1], existing) + if last.id in existing then [] else [last]
  }

  /** With unique ids the order does not matter. */
  lemma {:induction false} StartEachIsStartAll(s: Tables, list: seq<Rule>, ok: set<RuleID>)
    requires UniqueIDs(list)
    ensures StartEach(s, list, ok) == StartAll(s, RuleMap(list), ok)
  {
    if list == [] {
      StartAllNone(s, ok);
    } else {
      var n := |list| - 1;
      StartEachIsStartAll(s, list[..n], ok);
      RuleMapFresh(list, n);
      StartAllNext(s, RuleMap(list[..n]), list[n], ok);
    }
  }

  lemma {:induction false} RestartEachIsRestartAll(s: Tables, list: seq<Rule>, ok: set<RuleID>)
    requires UniqueIDs(list)
    ensures RestartEach(s, list, ok) == StartAll(StopAll(s, RuleMap(list).Keys), RuleMap(list), ok)
  {
    if list == [] {
      StartAllNone(s, ok);
      assert s.forwarders - {} == s.forwarders;
    } else {
      var n := |list| - 1;
      RestartEachIsRestartAll(s, list[..n], ok);
      RuleMapFresh(list, n);
      RestartNext(s, RuleMap(list[..n]), list[n], ok);
    }
  }

  lemma MissingNext(list: seq<Rule>, i: nat, existing: set<RuleID>)
    requires i < |list|
    ensures var before := Missing(list[..i], existing);
      Missing(list[..i + 1], existing) == if list[i].id in existing then before else before + [list[i]]
  {
    assert list[..i + 1][..i] == list[..i];
  }

  lemma {:induction false} MissingUnique(list: seq<Rule>, existing: set<RuleID>)
    requires UniqueIDs(list)
    ensures UniqueIDs(Missing(list, existing))
  {
    if list != [] {
      var n := |list| - 1;
      MissingUnique(list[..n], existing);
      assert forall r :: r in list[..n] ==> r.id != list[n].id;
    }
  }

  lemma {:induction false} MissingIsPicked(list: seq<Rule>, existing: set<RuleID>)
    requires UniqueIDs(list)
    ensures RuleMap(Missing(list, existing)) == Pick(RuleMap(list), RuleMap(list).Keys - existing)
  {
    if list == [] {
      SameMap(RuleMap(Missing(list, existing)), Pick(RuleMap(list), RuleMap(list).Keys - existing));
    } else {
      var n := |list| - 1;
      MissingIsPicked(list[..n], existing);
      RuleMapFresh(list, n);
      PickNext(RuleMap(list[..n]), existing, list[n]);
      AppendedMap(Missing(list[..n], existing), list[n]);
    }
  }

  lemma AppendedMap(list: seq<Rule>, rule: Rule)
    ensures RuleMap(list + [rule]) == RuleMap(list)[rule.id := rule] && RuleMap(list + []) == RuleMap(list)
  {
    assert (list + [rule])[..|list|] == list && list + [] == list;
  }

  lemma PickNext(batch: map<RuleID, Rule>, existing: set<RuleID>, rule: Rule)
    requires rule.id !in batch
    ensures var b := batch[rule.id := rule];
      Pick(b, b.Keys - existing) == if rule.id in existing then Pick(batch, batch.Keys - existing)
                                    else Pick(batch, batch.Keys - existing)[rule.id := rule]
  {
    var b, x := batch[rule.id := rule], Pick(batch, batch.Keys - existing);
    SameMap(Pick(b, b.Keys - existing), if rule.id in existing then x else x[rule.id := rule]);
  }

  // ---- Full syncs ----

  function Gone(s: Tables, rules: map<RuleID, Rule>): set<RuleID> {
    set id | id in s.forwarders && id !in rules
  }

  function NowBlocked(s: Tables, rules: map<RuleID, Rule>, blocked: seq<string>): set<RuleID> {
    set id | id in s.forwarders && id in rules && Blocked(blocked, rules[id].config.protocol)
  }

  function Edited(s: Tables, rules: map<RuleID, Rule>): set<RuleID> {
    set id | id in s.forwarders && id in rules && id in s.rules && Changed(s.rules[id], rules[id])
  }

  /** Forwarders without a rule stop, those in forbidden fail, those with an edited rule stop to start again. */
  function StopOutdated(s: Tables, rules: map<RuleID, Rule>, forbidden: set<RuleID>): Tables {
    s.(forwarders := s.forwarders - (Gone(s, rules) + forbidden + Edited(s, rules)),
       status := (s.status - Gone(s, rules)) + Outcomes(forbidden, {}))
  }

  /** The list is in force, and the forwarders of edited rules have been started again. */
  function Restarted(s: Tables, rules: map<RuleID, Rule>, blocked: seq<string>, forbidden: set<RuleID>, w: World): Tables {
    var stopped := StopOutdated(s, rules, forbidden).(rules := rules, blocked := blocked);
    StartAll(stopped, Pick(rules, Edited(s, rules) - forbidden), w.first)
  }

  function StartIdle(s: Tables, ok: set<RuleID>): Tables {
    StartAll(s, Pick(s.rules, s.rules.Keys - s.forwarders.Keys), ok)
  }

  function Resync(s: Tables, rules: map<RuleID, Rule>, blocked: seq<string>, forbidden: set<RuleID>, w: World): Tables {
    StartIdle(Restarted(s, rules, blocked, forbidden, w), w.second)
  }

  /** A full sync from the hub also replaces the blocked protocols and stops what they forbid. */
  function FullSync(s: Tables, rules: map<RuleID, Rule>, blocked: seq<string>, w: World): Tables {
    Resync(s, rules, blocked, NowBlocked(s, rules, blocked), w)
  }

  /** The fallback sync over HTTP knows nothing of blocked protocols. */
  function HttpSync(s: Tables, rules: map<RuleID, Rule>, w: World): Tables {
    Resync(s, rules, s.blocked, {}, w)
  }

  /** What it does with any list: a rule listed twice is started twice. */
  function HttpSyncListed(s: Tables, list: seq<Rule>, w: World): Tables {
    var s2 := Restarted(s, RuleMap(list), s.blocked, {}, w);
    StartEach(s2, Missing(list, s2.forwarders.Keys), w.second)
  }

  lemma HttpSyncUnique(s: Tables, list: seq<Rule>, w: World)
    requires UniqueIDs(list)
    ensures HttpSyncListed(s, list, w) == HttpSync(s, RuleMap(list), w)
  {
    var s2 := Restarted(s, RuleMap(list), s.blocked, {}, w);
    MissingUnique(list, s2.forwarders.Keys);
    MissingIsPicked(list, s2.forwarders.Keys);
    StartEachIsStartAll(s2, Missing(list, s2.forwarders.Keys), w.second);
  }

  // ---- Incremental syncs ----

  function Merged(rules: map<RuleID, Rule>, d: ConfigSync): map<RuleID, Rule> {
    (rules - (set id | id in d.removed)) + RuleMap(ConvertedAll(d.added)) + RuleMap(ConvertedAll(d.updated))
  }

  /** stopBlockedProtocolForwarders: judged by the current rule of each forwarder. */
  function StopBlocked(s: Tables): Tables {
    var ids := NowBlocked(s, s.rules, s.blocked);
    s.(forwarders := s.forwarders - ids, status := s.status + Outcomes(ids, {}))
  }

  function Block(s: Tables, blocked: Option<seq<string>>): Tables {
    match blocked
    case None => s
    case Some(list) => StopBlocked(s.(blocked := list))
  }

  function Remove(s: Tables, ids: set<RuleID>): Tables {
    s.(forwarders := s.forwarders - ids, status := s.status - ids)
  }

  function Incremental(s: Tables, d: ConfigSync, w: World): Tables {
    var s1 := Remove(Block(s, d.blocked), set id | id in d.removed);
    var s2 := RestartEach(s1, ConvertedAll(d.updated), w.first);
    StartEach(s2, ConvertedAll(d.added), w.second).(rules := Merged(s.rules, d))
  }

  /** With unique ids in each list, the order within a list does not matter. */
  lemma IncrementalUnique(s: Tables, d: ConfigSync, w: World)
    requires UniqueIDs(ConvertedAll(d.updated)) && UniqueIDs(ConvertedAll(d.added))
    ensures var s1 := Remove(Block(s, d.blocked), set id | id in d.removed);
      var updated, added := RuleMap(ConvertedAll(d.updated)), RuleMap(ConvertedAll(d.added));
      Incremental(s, d, w) == StartAll(StartAll(StopAll(s1, updated.Keys), updated, w.first), added, w.second)
                                .(rules := Merged(s.rules, d))
  {
    var s1 := Remove(Block(s, d.blocked), set id | id in d.removed);
    RestartEachIsRestartAll(s1, ConvertedAll(d.updated), w.first);
    StartEachIsStartAll(RestartEach(s1, ConvertedAll(d.updated), w.first), ConvertedAll(d.added), w.second);
  }

  /** Only a full sync may go back in versions. */
  function Configure(s: Tables, d: ConfigSync, w: World): Tables {
    if d.fullSync then
      FullSync(s, RuleMap(ConvertedAll(d.added)), if d.blocked.Some? then d.blocked.value else [], w).(version := d.version)
    else if d.version <= s.version then s
    else Incremental(s, d, w).(version := d.version)
  }

  // ---- Commands and start-up ----

  function Restart(s: Tables, id: RuleID, ok: bool): Tables {
    var s1 := StopOne(s, id, false);
    if id in s.rules then StartOne(s1, s.rules[id], ok) else s1
  }

  function FromCache(s: Tables, list: seq<Rule>, blocked: seq<string>, ok: set<RuleID>): Tables {
    StartEach(s.(rules := RuleMap(list), blocked := blocked), list, ok)
  }
}
