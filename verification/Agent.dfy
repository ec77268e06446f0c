/**
 * The agent's handlers, loop by loop. Where the program ranges over a map, the
 * next key is arbitrary; each contract gives one result all the same, so no
 * order of iteration can be told from another.
 */
module RuleSync {
  import opened Rules
  import opened RuleState
  import opened RuleEffects

  class Agent {
    var rules: seq<Rule>
    var forwarders: map<RuleID, Rule>
    var blockedProtocols: seq<string>
    var ruleStatus: map<RuleID, Status>
    var configVersion: nat

    ghost function State(): Tables
      reads this
    {
      Tables(RuleMap(rules), forwarders, blockedProtocols, ruleStatus, configVersion)
    }

    constructor ()
      ensures State() == INITIAL && rules == []
    {
      rules, forwarders, blockedProtocols, ruleStatus, configVersion := [], map[], [], map[], 0;
    }

    // ---- One forwarder ----

    /** ok: everything between the two status updates goes well. */
    method StartForwarder(rule: Rule, ok: bool)
      modifies this`forwarders, this`ruleStatus
      ensures State() == StartOne(old(State()), rule, ok)
    {
      var blocked := IsProtocolBlocked(blockedProtocols, rule.config.protocol);
      if blocked {
        ruleStatus := ruleStatus[rule.id := FAILED];
        return;
      }
      ruleStatus := ruleStatus[rule.id := STARTING];
      if !ok {
        ruleStatus := ruleStatus[rule.id := FAILED];
        assert ruleStatus == old(ruleStatus)[rule.id := FAILED];
        return;
      }
      forwarders := forwarders[rule.id := rule];
      ruleStatus := ruleStatus[rule.id := RUNNING];
      assert ruleStatus == old(ruleStatus)[rule.id := RUNNING];
    }

    method StopForwarder(id: RuleID, updateStatus: bool)
      modifies this`forwarders, this`ruleStatus
      ensures State() == StopOne(old(State()), id, updateStatus)
    {
      if id in forwarders {
        forwarders := forwarders - {id};
      }
      assert forwarders == old(forwarders) - {id};
      if updateStatus {
        ruleStatus := ruleStatus[id := STOPPED];
      }
    }

    // ---- Loops over lists ----

    method StartListed(list: seq<Rule>, ok: set<RuleID>)
      modifies this`forwarders, this`ruleStatus
      ensures State() == StartEach(old(State()), list, ok)
    {
      for i := 0 to |list|
        invariant rules == old(rules) && State() == StartEach(old(State()), list[..i], ok)
      {
        assert list[..i + 1][..i] == list[..i];
        StartForwarder(list[i], list[i].id in ok);
      }
      assert list[..|list|] == list;
    }

    method RestartListed(list: seq<Rule>, ok: set<RuleID>)
      modifies this`forwarders, this`ruleStatus
      ensures State() == RestartEach(old(State()), list, ok)
    {
      for i := 0 to |list|
        invariant rules == old(rules) && State() == RestartEach(old(State()), list[..i], ok)
      {
        assert list[..i + 1][..i] == list[..i];
        StopForwarder(list[i].id, false);
        StartForwarder(list[i], list[i].id in ok);
      }
      assert list[..|list|] == list;
    }

    method RemoveListed(ids: seq<RuleID>)
      modifies this`forwarders, this`ruleStatus
      ensures State() == Remove(old(State()), set id | id in ids)
    {
      for i := 0 to |ids|
        invariant forwarders == old(forwarders) - (set id | id in ids[..i])
        invariant ruleStatus == old(ruleStatus) - (set id | id in ids[..i])
      {
        assert ids[..i + 1] == ids[..i] + [ids[i]];
        StopForwarder(ids[i], false);
        ruleStatus := ruleStatus - {ids[i]};
      }
      assert ids[..|ids|] == ids;
    }

    // ---- Loops over maps ----

    /** Rebuilds the rules slice from a map. */
    method SetRules(newRules: map<RuleID, Rule>)
      requires forall id :: id in newRules ==> newRules[id].id == id
      modifies this`rules
      ensures UniqueIDs(rules) && RuleMap(rules) == newRules
    {
      rules := [];
      var rest := newRules.Keys;
      while rest != {}
        invariant rest <= newRules.Keys && UniqueIDs(rules) && NoneIn(rules, rest)
        invariant RuleMap(rules) == Pick(newRules, newRules.Keys - rest)
        decreases |rest|
      {
        var id :| id in rest;
        RuleMapAppend(rules, newRules[id], rest);
        NextPicked(newRules, newRules.Keys, rest, id);
        rest := rest - {id};
        rules := rules + [newRules[id]];
      }
    }

    /** One round of the loop below. */
    method StopIfOutdated(oldRules: map<RuleID, Rule>, newRules: map<RuleID, Rule>, forbid: seq<string>, id: RuleID)
      returns (again: bool)
      modifies this`forwarders, this`ruleStatus
      ensures var fate := FateOf(oldRules, newRules, forbid, id);
        && forwarders == (if fate.Keep? then old(forwarders) else old(forwarders) - {id})
        && ruleStatus == Marked(old(ruleStatus), fate, id)
        && again == fate.Again?
    {
      again := false;
      if id !in newRules {
        forwarders := forwarders - {id};
        ruleStatus := ruleStatus - {id};
        return;
      }
      var blocked := IsProtocolBlocked(forbid, newRules[id].config.protocol);
      if blocked {
        forwarders := forwarders - {id};
        ruleStatus := ruleStatus[id := FAILED];
      } else if id in oldRules {
        again := RuleConfigChanged(oldRules[id], newRules[id]);
        if again {
          forwarders := forwarders - {id};
        }
      }
    }

    /** The loop over the forwarders; the ghost sets say which ones meet which fate. */
    method StopEachOutdated(oldRules: map<RuleID, Rule>, newRules: map<RuleID, Rule>, forbid: seq<string>, ghost f: Fates)
      returns (toRestart: seq<Rule>)
      requires forall id :: id in newRules ==> newRules[id].id == id
      requires forall id :: id in forwarders ==> FateIn(f, id) == FateOf(oldRules, newRules, forbid, id)
      requires f.vanish + f.fail + f.again <= forwarders.Keys && f.again <= newRules.Keys && f.vanish !! f.fail
      modifies this`forwarders, this`ruleStatus
      ensures UniqueIDs(toRestart) && RuleMap(toRestart) == ToRestart(newRules, f, {})
      ensures forwarders == Left(old(forwarders), f, {}) && ruleStatus == Told(old(ruleStatus), f, {})
    {
      toRestart := [];
      var rest := forwarders.Keys;
      NothingStopped(forwarders, ruleStatus, newRules, f);
      while rest != {}
        invariant rest <= old(forwarders).Keys && UniqueIDs(toRestart)
        invariant NoneIn(toRestart, rest)
        invariant forwarders == Left(old(forwarders), f, rest)
        invariant ruleStatus == Told(old(ruleStatus), f, rest)
        invariant RuleMap(toRestart) == ToRestart(newRules, f, rest)
        decreases |rest|
      {
        var id :| id in rest;
        NextLeft(old(forwarders), f, rest, id);
        NextTold(old(ruleStatus), f, rest, id);
        NextAgain(newRules, f, rest, id);
        var again := StopIfOutdated(oldRules, newRules, forbid, id);
        if again {
          RuleMapAppend(toRestart, newRules[id], rest);
          toRestart := toRestart + [newRules[id]];
        }
        rest := rest - {id};
      }
    }

    /**
     * The first loop of handleFullSync and of syncRules: what has to stop, and
     * which rules are to start again. Only the former forbids protocols here.
     */
    method StopOutdatedForwarders(oldRules: map<RuleID, Rule>, newRules: map<RuleID, Rule>, forbid: seq<string>)
      returns (toRestart: seq<Rule>)
      requires forall id :: id in newRules ==> newRules[id].id == id
      modifies this`forwarders, this`ruleStatus
      ensures UniqueIDs(toRestart)
      ensures var s := old(State()).(rules := oldRules);
        var forbidden := NowBlocked(s, newRules, forbid);
        && RuleMap(toRestart) == Pick(newRules, Edited(s, newRules) - forbidden)
        && State() == StopOutdated(s, newRules, forbidden).(rules := RuleMap(rules))
    {
      ghost var s := State().(rules := oldRules);
      ghost var forbidden := NowBlocked(s, newRules, forbid);
      ghost var f := Fates(Gone(s, newRules), forbidden, Edited(s, newRules) - forbidden);
      toRestart := StopEachOutdated(oldRules, newRules, forbid, f);
      AllStopped(s, newRules, forbidden);
    }

    /** handleFullSync, last loop: start every rule that has no forwarder. */
    method StartMissing(newRules: map<RuleID, Rule>, ok: set<RuleID>)
      requires RuleMap(rules) == newRules
      modifies this`forwarders, this`ruleStatus
      ensures State() == StartIdle(old(State()), ok)
    {
      assert newRules.Keys - forwarders.Keys - {} == newRules.Keys - forwarders.Keys;
      StartAbsent(newRules, ok, State());
    }

    method StartIfAbsent(rule: Rule, ok: bool)
      modifies this`forwarders, this`ruleStatus
      ensures State() == if rule.id in old(forwarders) then old(State()) else StartOne(old(State()), rule, ok)
    {
      if rule.id !in forwarders {
        StartForwarder(rule, ok);
      }
    }

    /** The loop over the rules; s is the state before it. */
    method StartAbsent(newRules: map<RuleID, Rule>, ok: set<RuleID>, ghost s: Tables)
      requires s == State() && forall id :: id in newRules ==> newRules[id].id == id
      modifies this`forwarders, this`ruleStatus
      ensures State() == Tried(s, newRules, {}, ok)
    {
      var rest := newRules.Keys;
      NoneTried(s, newRules, ok);
      while rest != {}
        invariant rest <= newRules.Keys && State() == Tried(s, newRules, rest, ok)
        decreases |rest|
      {
        var id :| id in rest;
        NextTried(s, newRules, rest, id, ok);
        StartIfAbsent(newRules[id], id in ok);
        rest := rest - {id};
      }
    }

    method StopIfBlocked(current: map<RuleID, Rule>, id: RuleID)
      modifies this`forwarders, this`ruleStatus
      ensures var stop := id in current && Blocked(blockedProtocols, current[id].config.protocol);
        && forwarders == (if stop then old(forwarders) - {id} else old(forwarders))
        && ruleStatus == (if stop then old(ruleStatus)[id := FAILED] else old(ruleStatus))
    {
      if id !in current {
        return;
      }
      var blocked := IsProtocolBlocked(blockedProtocols, current[id].config.protocol);
      if blocked {
        forwarders := forwarders - {id};
        ruleStatus := ruleStatus[id := FAILED];
      }
    }

    /** The loop over the forwarders; ids are those it has to stop. */
    method StopEachBlocked(current: map<RuleID, Rule>, ghost ids: set<RuleID>)
      requires forall id :: id in forwarders ==>
        (id in ids <==> id in current && Blocked(blockedProtocols, current[id].config.protocol))
      requires ids <= forwarders.Keys
      modifies this`forwarders, this`ruleStatus
      ensures forwarders == Dropped(old(forwarders), ids, {}) && ruleStatus == Failed(old(ruleStatus), ids, {})
    {
      var rest := forwarders.Keys;
      NothingDropped(forwarders, ruleStatus, ids);
      while rest != {}
        invariant rest <= old(forwarders).Keys
        invariant forwarders == Dropped(old(forwarders), ids, rest) && ruleStatus == Failed(old(ruleStatus), ids, rest)
        decreases |rest|
      {
        var id :| id in rest;
        DroppedNext(old(forwarders), ids, rest, id);
        FailedNext(old(ruleStatus), ids, rest, id);
        StopIfBlocked(current, id);
        rest := rest - {id};
      }
    }

    /** stopBlockedProtocolForwarders */
    method StopBlockedProtocolForwarders()
      modifies this`forwarders, this`ruleStatus
      ensures State() == StopBlocked(old(State()))
    {
      var current := RuleMap(rules);
      ghost var ids := NowBlocked(State(), current, blockedProtocols);
      assert ids - {} == ids;
      StopEachBlocked(current, ids);
    }

    // ---- Handlers ----

    method UpdateBlockedProtocols(protocols: seq<string>)
      modifies this`forwarders, this`ruleStatus, this`blockedProtocols
      ensures State() == StopBlocked(old(State()).(blocked := protocols)) && blockedProtocols == protocols
      ensures forall id ::
        if Hit(old(State()), protocols, id) then id !in forwarders && id in ruleStatus && ruleStatus[id] == FAILED
        else SameAt(old(State()), State(), id)
    {
      forall id {
        BlockingExactly(State(), protocols, id);
      }
      blockedProtocols := protocols;
      if |protocols| > 0 {
        StopBlockedProtocolForwarders();
      } else {
        NothingBlocked(State());
      }
    }

    method HandleFullSync(d: ConfigSync, w: World)
      modifies this
      ensures UniqueIDs(rules)
      ensures State() == FullSync(old(State()), RuleMap(ConvertedAll(d.added)), if d.blocked.Some? then d.blocked.value else [], w)
    {
      var added := ConvertList(d.added);
      blockedProtocols := if d.blocked.Some? then d.blocked.value else [];
      ReplaceAll(RuleMap(added), w);
    }

    /** handleFullSync from the point where both locks are held. */
    method ReplaceAll(newRules: map<RuleID, Rule>, w: World)
      requires forall id :: id in newRules ==> newRules[id].id == id
      modifies this`rules, this`forwarders, this`ruleStatus
      ensures UniqueIDs(rules)
      ensures State() == FullSync(old(State()), newRules, blockedProtocols, w)
    {
      var oldRules := RuleMap(rules);
      SetRules(newRules);
      var toRestart := StopOutdatedForwarders(oldRules, newRules, blockedProtocols);
      StartEachIsStartAll(State(), toRestart, w.first);
      StartListed(toRestart, w.first);
      StartMissing(newRules, w.second);
    }

    method SyncRules(list: seq<Rule>, w: World)
      modifies this`rules, this`forwarders, this`ruleStatus
      ensures rules == list && State() == HttpSyncListed(old(State()), list, w)
    {
      var ruleMap := RuleMap(list);
      var oldRules := RuleMap(rules);
      rules := list;
      NothingForbidden(State().(rules := oldRules), ruleMap);
      var toRestart := StopOutdatedForwarders(oldRules, ruleMap, []);
      StartEachIsStartAll(State(), toRestart, w.first);
      StartListed(toRestart, w.first);
      StartNew(list, forwarders.Keys, w.second);
    }

    /** syncRules, last loop: it goes by the forwarders that ran before it began. */
    method StartNew(list: seq<Rule>, existingIDs: set<RuleID>, ok: set<RuleID>)
      modifies this`forwarders, this`ruleStatus
      ensures State() == StartEach(old(State()), Missing(list, existingIDs), ok)
    {
      for i := 0 to |list|
        invariant rules == old(rules) && State() == StartEach(old(State()), Missing(list[..i], existingIDs), ok)
      {
        MissingNext(list, i, existingIDs);
        if list[i].id !in existingIDs {
          EachNext(old(State()), Missing(list[..i], existingIDs), list[i], ok);
          StartForwarder(list[i], list[i].id in ok);
        }
      }
      assert list[..|list|] == list;
    }

    method HandleIncrementalSync(d: ConfigSync, w: World)
      modifies this
      ensures UniqueIDs(rules)
      ensures State() == Incremental(old(State()), d, w)
    {
      if d.blocked.Some? {
        UpdateBlockedProtocols(d.blocked.value);
      }
      RemoveListed(d.removed);
      var updated := ConvertList(d.updated);
      RestartListed(updated, w.first);
      var added := ConvertList(d.added);
      StartListed(added, w.second);
      UpdateRulesList(d.removed, added, updated);
    }

    method UpdateRulesList(removed: seq<RuleID>, added: seq<Rule>, updated: seq<Rule>)
      modifies this`rules
      ensures UniqueIDs(rules)
      ensures RuleMap(rules) == (RuleMap(old(rules)) - (set id | id in removed)) + RuleMap(added) + RuleMap(updated)
    {
      var ruleMap := RuleMap(rules);
      ghost var before := ruleMap;
      for i := 0 to |removed|
        invariant ruleMap == before - (set id | id in removed[..i])
      {
        ruleMap := ruleMap - {removed[i]};
      }
      assert removed[..|removed|] == removed;
      ruleMap := Overwrite(ruleMap, added);
      ruleMap := Overwrite(ruleMap, updated);
      SetRules(ruleMap);
    }

    method HandleConfigSync(d: ConfigSync, w: World) returns (applied: bool)
      modifies this
      ensures if applied then UniqueIDs(rules) else rules == old(rules)
      ensures State() == Configure(old(State()), d, w)
      ensures applied <==> d.fullSync || old(configVersion) < d.version
    {
      if !d.fullSync && d.version <= configVersion {
        return false;
      }
      if d.fullSync {
        HandleFullSync(d, w);
      } else {
        HandleIncrementalSync(d, w);
      }
      configVersion := d.version;
      return true;
    }

    /** The first rule of the list with this id, if any. */
    method FindRule(id: RuleID) returns (rule: Option<Rule>)
      requires UniqueIDs(rules)
      ensures rule == if id in RuleMap(rules) then Some(RuleMap(rules)[id]) else None
    {
      for i := 0 to |rules|
        invariant forall j :: 0 <= j < i ==> rules[j].id != id
      {
        if rules[i].id == id {
          RuleMapHoldsLast(rules, i);
          return Some(rules[i]);
        }
      }
      return None;
    }

    method HandleRestartRuleCommand(id: RuleID, ok: bool) returns (found: bool)
      requires UniqueIDs(rules)
      modifies this`forwarders, this`ruleStatus
      ensures State() == Restart(old(State()), id, ok)
      ensures found <==> id in RuleMap(rules)
    {
      StopForwarder(id, false);
      var rule := FindRule(id);
      found := rule.Some?;
      if found {
        StartForwarder(rule.value, ok);
      }
    }

    method HandleStopRuleCommand(id: RuleID)
      modifies this`forwarders, this`ruleStatus
      ensures State() == StopOne(old(State()), id, true)
    {
      StopForwarder(id, true);
    }

    method StartFromCache(list: seq<Rule>, blocked: seq<string>, ok: set<RuleID>)
      modifies this
      ensures rules == list && State() == FromCache(old(State()), list, blocked, ok)
    {
      rules, blockedProtocols := list, blocked;
      StartListed(list, ok);
    }
  }

  // ---- Helpers without state ----

  method ConvertList(ds: seq<RuleSyncData>) returns (list: seq<Rule>)
    ensures list == ConvertedAll(ds)
  {
    list := [];
    for i := 0 to |ds|
      invariant list == ConvertedAll(ds)[..i]
    {
      var rule := RuleSyncDataToRule(ds[i]);
      list := list + [rule];
    }
  }

  method Overwrite(ruleMap: map<RuleID, Rule>, list: seq<Rule>) returns (m: map<RuleID, Rule>)
    requires forall id :: id in ruleMap ==> ruleMap[id].id == id
    ensures m == ruleMap + RuleMap(list) && forall id :: id in m ==> m[id].id == id
  {
    m := ruleMap;
    for i := 0 to |list|
      invariant m == ruleMap + RuleMap(list[..i])
    {
      RuleMapNext(list, i);
      MergeNext(ruleMap, RuleMap(list[..i]), list[i].id, list[i]);
      m := m[list[i].id := list[i]];
    }
    assert list[..|list|] == list;
  }

  // ---- One more key of a loop ----

  function Dropped(m: map<RuleID, Rule>, ids: set<RuleID>, rest: set<RuleID>): map<RuleID, Rule> {
    m - (ids - rest)
  }

  lemma DroppedNext(m: map<RuleID, Rule>, ids: set<RuleID>, rest: set<RuleID>, id: RuleID)
    requires id in rest
    ensures Dropped(m, ids, rest - {id}) == if id in ids then Dropped(m, ids, rest) - {id} else Dropped(m, ids, rest)
  {
    SameMap(Dropped(m, ids, rest - {id}), if id in ids then Dropped(m, ids, rest) - {id} else Dropped(m, ids, rest));
  }

  function Failed(status: map<RuleID, Status>, ids: set<RuleID>, rest: set<RuleID>): map<RuleID, Status> {
    status + Outcomes(ids - rest, {})
  }

  lemma FailedNext(status: map<RuleID, Status>, ids: set<RuleID>, rest: set<RuleID>, id: RuleID)
    requires id in rest
    ensures Failed(status, ids, rest - {id})
         == if id in ids then Failed(status, ids, rest)[id := FAILED] else Failed(status, ids, rest)
  {
    var x := Failed(status, ids, rest);
    SameMap(Failed(status, ids, rest - {id}), if id in ids then x[id := FAILED] else x);
  }

  lemma NothingDropped(m: map<RuleID, Rule>, status: map<RuleID, Status>, ids: set<RuleID>)
    requires ids <= m.Keys
    ensures Dropped(m, ids, m.Keys) == m && Failed(status, ids, m.Keys) == status
  {
    assert ids - m.Keys == {};
    SameMap(Failed(status, ids, m.Keys), status);
  }

  // ---- What the stopping loop of a sync has done so far ----

  datatype Fate = Vanish | Fail | Again | Keep

  function FateOf(oldRules: map<RuleID, Rule>, newRules: map<RuleID, Rule>, forbid: seq<string>, id: RuleID): Fate {
    if id !in newRules then Vanish
    else if Blocked(forbid, newRules[id].config.protocol) then Fail
    else if id in oldRules && Changed(oldRules[id], newRules[id]) then Again
    else Keep
  }

  datatype Fates = Fates(vanish: set<RuleID>, fail: set<RuleID>, again: set<RuleID>)

  function FateIn(f: Fates, id: RuleID): Fate {
    if id in f.vanish then Vanish else if id in f.fail then Fail else if id in f.again then Again else Keep
  }

  function Marked(status: map<RuleID, Status>, fate: Fate, id: RuleID): map<RuleID, Status> {
    match fate
    case Vanish => status - {id}
    case Fail => status[id := FAILED]
    case _ => status
  }

  function Left(m: map<RuleID, Rule>, f: Fates, rest: set<RuleID>): map<RuleID, Rule> {
    Dropped(m, f.vanish + f.fail + f.again, rest)
  }

  function Told(status: map<RuleID, Status>, f: Fates, rest: set<RuleID>): map<RuleID, Status> {
    Failed(status, f.fail, rest) - (f.vanish - f.fail - rest)
  }

  function ToRestart(rules: map<RuleID, Rule>, f: Fates, rest: set<RuleID>): map<RuleID, Rule> {
    Pick(rules, f.again - f.fail - f.vanish - rest)
  }

  lemma NextLeft(m: map<RuleID, Rule>, f: Fates, rest: set<RuleID>, id: RuleID)
    requires id in rest
    ensures Left(m, f, rest - {id}) == if FateIn(f, id).Keep? then Left(m, f, rest) else Left(m, f, rest) - {id}
  {
    DroppedNext(m, f.vanish + f.fail + f.again, rest, id);
  }

  lemma NextTold(status: map<RuleID, Status>, f: Fates, rest: set<RuleID>, id: RuleID)
    requires id in rest && f.vanish !! f.fail
    ensures Told(status, f, rest - {id}) == Marked(Told(status, f, rest), FateIn(f, id), id)
  {
    FailedNext(status, f.fail, rest, id);
    SameMap(Told(status, f, rest - {id}), Marked(Told(status, f, rest), FateIn(f, id), id));
  }

  lemma NextAgain(rules: map<RuleID, Rule>, f: Fates, rest: set<RuleID>, id: RuleID)
    requires id in rest && f.again <= rules.Keys
    ensures ToRestart(rules, f, rest - {id})
         == if FateIn(f, id).Again? then ToRestart(rules, f, rest)[id := rules[id]] else ToRestart(rules, f, rest)
  {
    if id in rules {
      NextPicked(rules, f.again - f.fail - f.vanish, rest, id);
    } else {
      SameMap(ToRestart(rules, f, rest - {id}), ToRestart(rules, f, rest));
    }
  }

  lemma NothingStopped(m: map<RuleID, Rule>, status: map<RuleID, Status>, rules: map<RuleID, Rule>, f: Fates)
    requires f.vanish + f.fail + f.again <= m.Keys
    ensures Left(m, f, m.Keys) == m && Told(status, f, m.Keys) == status && ToRestart(rules, f, m.Keys) == map[]
  {
    NothingDropped(m, status, f.vanish + f.fail + f.again);
    NothingDropped(m, status, f.fail);
    SameMap(Told(status, f, m.Keys), status);
    SameMap(ToRestart(rules, f, m.Keys), map[]);
  }

  lemma AllStopped(s: Tables, rules: map<RuleID, Rule>, forbidden: set<RuleID>)
    requires forbidden <= s.forwarders.Keys * rules.Keys
    ensures var f := Fates(Gone(s, rules), forbidden, Edited(s, rules) - forbidden);
      && Left(s.forwarders, f, {}) == StopOutdated(s, rules, forbidden).forwarders
      && Told(s.status, f, {}) == StopOutdated(s, rules, forbidden).status
      && ToRestart(rules, f, {}) == Pick(rules, Edited(s, rules) - forbidden)
  {
    var f := Fates(Gone(s, rules), forbidden, Edited(s, rules) - forbidden);
    assert f.vanish + f.fail + f.again - {} == Gone(s, rules) + forbidden + Edited(s, rules);
    SameMap(Told(s.status, f, {}), StopOutdated(s, rules, forbidden).status);
    assert f.again - f.fail - f.vanish - {} == Edited(s, rules) - forbidden;
  }

  lemma NothingForbidden(s: Tables, rules: map<RuleID, Rule>)
    ensures NowBlocked(s, rules, []) == {}
  {
  }

  lemma NextPicked(m: map<RuleID, Rule>, ids: set<RuleID>, rest: set<RuleID>, id: RuleID)
    requires id in rest && id in m
    ensures Pick(m, ids - (rest - {id})) == if id in ids then Pick(m, ids - rest)[id := m[id]] else Pick(m, ids - rest)
  {
    SameMap(Pick(m, ids - (rest - {id})), if id in ids then Pick(m, ids - rest)[id := m[id]] else Pick(m, ids - rest));
  }

  lemma EachNext(s: Tables, list: seq<Rule>, rule: Rule, ok: set<RuleID>)
    ensures StartEach(s, list + [rule], ok) == StartOne(StartEach(s, list, ok), rule, rule.id in ok)
  {
    assert (list + [rule])[..|list|] == list;
  }

  /** The rules without a forwarder have been tried, except those in rest. */
  function Tried(s: Tables, rules: map<RuleID, Rule>, rest: set<RuleID>, ok: set<RuleID>): Tables {
    StartAll(s, Pick(rules, rules.Keys - s.forwarders.Keys - rest), ok)
  }

  lemma NoneTried(s: Tables, rules: map<RuleID, Rule>, ok: set<RuleID>)
    ensures Tried(s, rules, rules.Keys, ok) == s
  {
    SameMap(Pick(rules, rules.Keys - s.forwarders.Keys - rules.Keys), map[]);
    StartAllNone(s, ok);
  }

  lemma NextTried(s: Tables, rules: map<RuleID, Rule>, rest: set<RuleID>, id: RuleID, ok: set<RuleID>)
    requires id in rest && id in rules && rules[id].id == id
    ensures var before := Tried(s, rules, rest, ok);
      Tried(s, rules, rest - {id}, ok) == if id in before.forwarders then before else StartOne(before, rules[id], id in ok)
  {
    var idle := rules.Keys - s.forwarders.Keys;
    assert id in Tried(s, rules, rest, ok).forwarders <==> id in s.forwarders;
    NextPicked(rules, idle, rest, id);
    if id in idle {
      StartAllNext(s, Pick(rules, idle - rest), rules[id], ok);
    }
  }

  lemma NothingBlocked(s: Tables)
    requires s.blocked == []
    ensures StopBlocked(s) == s
  {
    assert NowBlocked(s, s.rules, s.blocked) == {};
    assert s.forwarders - {} == s.forwarders;
    SameMap(StopBlocked(s).status, s.status);
  }
}
