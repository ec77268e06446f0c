/** Forwarding rules, how they are compared, and which protocols an agent may not use. */
module Rules {
  type RuleID = string

  datatype ExitAgent = ExitAgent(agentID: string, weight: nat)

  /** The connection fields whose change restarts a forwarder. */
  datatype Config = Config(
    nextHopAddress: string, nextHopPort: nat, nextHopWsPort: nat, nextHopTlsPort: nat,
    targetAddress: string, targetPort: nat, bindIP: string, listenPort: nat, listenIP: string,
    protocol: string, tunnelType: string, isLastInChain: bool, hopMode: string, outboundMode: string,
    addressPreference: string)

  /**
   * Fields that a forwarder is built from as well, but whose change restarts
   * nothing. The health-check settings of a load-balancing entry, which the agent
   * keeps in a map of their own, are of this kind too and are not modelled.
   */
  datatype Rest = Rest(
    ruleType: string, role: string, agentID: string, exitAgentID: string, loadBalanceStrategy: string,
    inboundMode: string, nextHopAgentID: string, nextHopConnectionToken: string)

  datatype Rule = Rule(id: RuleID, config: Config, exitAgents: seq<ExitAgent>, rest: Rest)

  datatype ExitAgentSyncData = ExitAgentSyncData(agentID: string, weight: nat, online: bool)

  /** A rule as the hub sends it: every exit agent, with its state. */
  datatype RuleSyncData = RuleSyncData(id: RuleID, config: Config, exitAgents: seq<ExitAgentSyncData>, rest: Rest)

  // ---- Comparison ----

  predicate Changed(a: Rule, b: Rule) {
    a.config != b.config || a.exitAgents != b.exitAgents
  }

  /** Compares agent by agent; two lists are equal exactly when they are the same list. */
  method ExitAgentsEqual(a: seq<ExitAgent>, b: seq<ExitAgent>) returns (same: bool)
    ensures same <==> a == b
  {
    if |a| != |b| {
      return false;
    }
    for i := 0 to |a|
      invariant a[..i] == b[..i]
    {
      if a[i].agentID != b[i].agentID || a[i].weight != b[i].weight {
        return false;
      }
    }
    assert a == a[..|a|] && b == b[..|b|];
    return true;
  }

  method RuleConfigChanged(old_: Rule, new_: Rule) returns (changed: bool)
    ensures changed <==> Changed(old_, new_)
  {
    var a, b := old_.config, new_.config;
    if a.nextHopAddress != b.nextHopAddress
       || a.nextHopPort != b.nextHopPort
       || a.nextHopWsPort != b.nextHopWsPort
       || a.nextHopTlsPort != b.nextHopTlsPort
       || a.targetAddress != b.targetAddress
       || a.targetPort != b.targetPort
       || a.bindIP != b.bindIP
       || a.listenPort != b.listenPort
       || a.listenIP != b.listenIP
       || a.protocol != b.protocol
       || a.tunnelType != b.tunnelType
       || a.isLastInChain != b.isLastInChain
       || a.hopMode != b.hopMode
       || a.outboundMode != b.outboundMode
       || a.addressPreference != b.addressPreference {
      return true;
    }
    var same := ExitAgentsEqual(old_.exitAgents, new_.exitAgents);
    return !same;
  }

  // ---- Conversion ----

  function Online(agents: seq<ExitAgentSyncData>): seq<ExitAgent> {
    if agents == [] then []
    else
      var last := agents[|agents| - 1];
      Online(agents[..|agents| - 1]) + if last.online then [ExitAgent(last.agentID, last.weight)] else []
  }

  predicate Ascending(at: seq<nat>, n: nat) {
    (forall k :: 0 <= k < |at| ==> at[k] < n) && forall j, k :: 0 <= j < k < |at| ==> at[j] < at[k]
  }

  /** The list has the online agents, each with its weight, in the order of the message: at[k] is the place of the k-th. */
  predicate OnlineAt(agents: seq<ExitAgentSyncData>, at: seq<nat>, list: seq<ExitAgent>) {
    && Ascending(at, |agents|) && |list| == |at|
    && (forall k :: 0 <= k < |at| ==>
          agents[at[k]].online && list[k] == ExitAgent(agents[at[k]].agentID, agents[at[k]].weight))
    && (forall i :: 0 <= i < |agents| && agents[i].online ==> i in at)
  }

  lemma OneMoreAgent(agents: seq<ExitAgentSyncData>, agent: ExitAgentSyncData, at: seq<nat>, list: seq<ExitAgent>)
    requires OnlineAt(agents, at, list)
    ensures agent.online ==> OnlineAt(agents + [agent], at + [|agents|], list + [ExitAgent(agent.agentID, agent.weight)])
    ensures !agent.online ==> OnlineAt(agents + [agent], at, list)
  {
    forall i | 0 <= i < |agents + [agent]| && (agents + [agent])[i].online
      ensures i in at + [|agents|]
    {
      assert i < |agents| ==> i in at;
    }
  }

  /** Exactly the online agents, in order. */
  lemma {:induction false} OnlineInOrder(agents: seq<ExitAgentSyncData>) returns (at: seq<nat>)
    ensures OnlineAt(agents, at, Online(agents))
  {
    if agents == [] {
      at := [];
    } else {
      var init, last := agents[..|agents| - 1], agents[|agents| - 1];
      at := OnlineInOrder(init);
      OneMoreAgent(init, last, at, Online(init));
      assert agents == init + [last] && Online(init) + [] == Online(init);
      if last.online {
        at := at + [|init|];
      }
    }
  }

  /** The hub has no field for a single exit agent. */
  function Converted(d: RuleSyncData): Rule {
    Rule(d.id, d.config, Online(d.exitAgents), d.rest.(exitAgentID := ""))
  }

  /** The rule has the id and the fields of the message, no single exit agent, and its online exit agents in order. */
  lemma ConvertedKeeps(d: RuleSyncData) returns (at: seq<nat>)
    ensures var rule := Converted(d);
      && rule.id == d.id && rule.config == d.config && rule.rest == d.rest.(exitAgentID := "")
      && OnlineAt(d.exitAgents, at, rule.exitAgents)
  {
    at := OnlineInOrder(d.exitAgents);
  }

  function ConvertedAll(ds: seq<RuleSyncData>): seq<Rule> {
    seq(|ds|, i requires 0 <= i < |ds| => Converted(ds[i]))
  }

  method RuleSyncDataToRule(data: RuleSyncData) returns (rule: Rule)
    ensures rule == Converted(data)
  {
    var exitAgents := [];
    for i := 0 to |data.exitAgents|
      invariant exitAgents == Online(data.exitAgents[..i])
    {
      assert data.exitAgents[..i + 1][..i] == data.exitAgents[..i];
      if !data.exitAgents[i].online {
        continue;
      }
      exitAgents := exitAgents + [ExitAgent(data.exitAgents[i].agentID, data.exitAgents[i].weight)];
    }
    assert data.exitAgents[..|data.exitAgents|] == data.exitAgents;
    return Rule(data.id, data.config, exitAgents, data.rest.(exitAgentID := ""));
  }

  // ---- Lists of rules ----

  /** What a Go map built from the list holds: the last rule of each id. */
  function RuleMap(rules: seq<Rule>): (m: map<RuleID, Rule>)
    ensures forall id :: id in m ==> m[id].id == id && m[id] in rules
    ensures forall i :: 0 <= i < |rules| ==> rules[i].id in m
  {
    if rules == [] then map[]
    else
      var last := rules[|rules| - 1];
      RuleMap(rules[..|rules| - 1])[last.id := last]
  }

  predicate UniqueIDs(rules: seq<Rule>) {
    forall i, j :: 0 <= i < j < |rules| ==> rules[i].id != rules[j].id
  }

  lemma RuleMapNext(rules: seq<Rule>, i: nat)
    requires i < |rules|
    ensures RuleMap(rules[..i + 1]) == RuleMap(rules[..i])[rules[i].id := rules[i]]
  {
    assert rules[..i + 1][..i] == rules[..i];
  }

  predicate NoneIn(rules: seq<Rule>, ids: set<RuleID>) {
    forall i :: 0 <= i < |rules| ==> rules[i].id !in ids
  }

  lemma RuleMapAppend(rules: seq<Rule>, rule: Rule, ids: set<RuleID>)
    requires UniqueIDs(rules) && rule.id in ids && NoneIn(rules, ids)
    ensures UniqueIDs(rules + [rule]) && NoneIn(rules + [rule], ids - {rule.id})
    ensures RuleMap(rules + [rule]) == RuleMap(rules)[rule.id := rule]
  {
    assert (rules + [rule])[..|rules|] == rules;
  }

  lemma RuleMapFresh(rules: seq<Rule>, i: nat)
    requires i < |rules| && UniqueIDs(rules)
    ensures rules[i].id !in RuleMap(rules[..i])
  {
  }

  /** The map holds the last rule of each id; with unique ids it holds every rule of the list. */
  lemma {:induction false} RuleMapHoldsLast(rules: seq<Rule>, i: nat)
    requires i < |rules| && forall j :: i < j < |rules| ==> rules[j].id != rules[i].id
    ensures RuleMap(rules)[rules[i].id] == rules[i]
  {
    if i < |rules| - 1 {
      RuleMapHoldsLast(rules[..|rules| - 1], i);
    }
  }

  // ---- Blocked protocols ----

  /** Case folding of the ASCII letters. */
  function Lower(c: char): char {
    if 'A' <= c <= 'Z' then c - 'A' + 'a' else c
  }

  predicate EqualFold(a: string, b: string) {
    |a| == |b| && forall i :: 0 <= i < |a| ==> Lower(a[i]) == Lower(b[i])
  }

  predicate Blocked(list: seq<string>, protocol: string) {
    exists i :: 0 <= i < |list| && EqualFold(list[i], if protocol == "" then "tcp" else protocol)
  }

  predicate Letter(c: char) {
    'a' <= c <= 'z' || 'A' <= c <= 'Z'
  }

  /** The same character, or the same letter in the other case. */
  predicate SameLetter(a: char, b: char) {
    a == b || (Letter(a) && Letter(b) && (a as int - b as int == 32 || b as int - a as int == 32))
  }

  /**
   * What counts as blocked: an entry of the list that spells the protocol, letter
   * by letter and in any case; an empty protocol is spelled tcp.
   */
  lemma BlockedMeans(list: seq<string>, protocol: string)
    ensures Blocked(list, protocol) <==>
      exists i :: 0 <= i < |list| && (var name := if protocol == "" then "tcp" else protocol;
        |list[i]| == |name| && forall k :: 0 <= k < |name| ==> SameLetter(list[i][k], name[k]))
  {
  }

  method IsProtocolBlocked(list: seq<string>, protocol: string) returns (blocked: bool)
    ensures blocked <==> Blocked(list, protocol)
  {
    var name := if protocol == "" then "tcp" else protocol;
    for i := 0 to |list|
      invariant forall j :: 0 <= j < i ==> !EqualFold(list[j], name)
    {
      if EqualFold(list[i], name) {
        return true;
      }
    }
    return false;
  }
}
