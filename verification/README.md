# orris-client: a verified model

orris-client is a traffic-forwarding agent. Many TCP and UDP client connections
are multiplexed over one tunnel, from an entry agent through any number of relay
agents to an exit agent, while a control server keeps changing the rules. This
project models the parts of the agent where several goroutines, several agents or
several messages have to agree, and proves what they guarantee over whole runs.

`dafny verify dfyconfig.toml` checks everything.

## What is modelled

**The tunnel protocol** (`Messages`, `Line`, `Chain`, `ChainLife`, `ChainData`,
`ChainClose`, `ChainTheorems`, `ChainLeaving`, `ChainSettles`, `ChainDelivers`,
`ChainFrames`). A chain is an entry
end, relays and an exit end joined by FIFO queues of Connect, Data and Close. One
step of `Chain.Next` is one critical section or one SendMessage of one goroutine:
registering a client (internal/forwarder/entry.go:607-640), sending its Connect
(636-649), a read and the Data that follows (655-682), deletion from the table and
the Close that follows (684-700), the exit's dial and its refusal
(internal/forwarder/exit.go:143-192), its deliveries, its readers and its Close
(264-356, 398-412), a relay moving one message with its marks
(internal/forwarder/relay.go:114-239), and the expiry of one mark (259-271). Any
interleaving of enabled steps is a run. A relay marks an id and passes the Close on
in one step: each direction has one reading goroutine, and the other direction
never touches the queue that the Close goes to. The same ends and the relay are
also written as classes (`EntryForwarding`, `ExitForwarding`, `RelayForwarding`)
whose methods are proved against the functions that `Chain.Next` is made of.

**UDP bookkeeping** (`UdpIndex`, and the UDP methods of `EntryForwarding`): the maps
from address to client and from id to address.

**Rule reconciliation** (`Rules`, `RuleState`, `RuleTheorems`, `RuleEffects`,
`RuleVersions`, `RuleSync`). `RuleState` says what each handler makes of the rules,
forwarders, blocked protocols, statuses and version, without loops and without an
order; `RuleEffects` says the same of one rule at a time, in plain terms.
`RuleSync.Agent` has the handlers with their loops; where the program ranges over
a map the next key is arbitrary, and each method is proved to reach the one
specified state. Whether a start succeeds is a parameter, once for a restart and
once for the later attempt that a sync makes for every rule still without a
forwarder.

**Circuit breaker, health and selection** (`CircuitBreaking`, `CircuitHistory`,
`Health`, `HealthRace`, `Selection`, `Arith`), **the wire formats** (`Wire`, `Frames`,
`Handshake`), **traffic accounting** (`Traffic`, `TrafficRuns`, `TrafficDelivery`),
**the rule cache** (`CachePersist`, `RuleCache`), **handler
replacement** (`HotSwap`) and **the write queue** (`WriteQueue`). The protocols among
them are step systems at the granularity of locks, atomics and channel operations;
counters, loops and buffers are methods proved against specification functions.

## Where code and comments disagree

The model follows the code.

- internal/agent/hub.go:345-346 says the comparison finds every change that needs a
  restart. Rule type, role, single exit agent, load-balance strategy and others are
  not compared: `RuleTheorems.StaleForwarder`, with the exact condition beside it.
- internal/agent/hub.go:200 says that a full sync stops all and restarts. Forwarders
  of unchanged rules keep running.
- internal/tunnel/server.go:326-328 says that the double check handles replacements
  during setup. It handles one: `HotSwap.TwoReplacements`, and exactly which
  connections end with the newest handler: `HotSwap.BoundToNewestExactly`. The
  deferred disconnect notice goes to the handler of the setup:
  `HotSwap.LeavingTellsTheOldHandler`, and exactly when that is the current one:
  `HotSwap.SetupTellsCurrent`.
- internal/tunnel/tls_server.go:440 takes the end-of-file error for a clean end. A
  frame cut right behind its header gives the same error:
  `Frames.CleanEndInsideFrame`, and exactly which cuts do: `Frames.CutStream`.
- internal/agent/agent.go:93-95 says that the saved cache stays fresh. A refreshed rule
  (internal/agent/tunnel_manager.go:364) is not announced and stays out of the file
  until somebody else signals: `CachePersist.UnsignalledChangeIsLost`,
  `CachePersist.LostExactly` and `CachePersist.SilentChangeReachesFile`. Saving an
  empty list leaves a cache that cannot be loaded: `RuleCache.EmptySaveForgets`, and
  for every snapshot: `RuleCache.LoadsWhatWasSaved`.
- internal/forwarder/exit.go:209-222 asks the circuit breaker and, when the address
  cannot be resolved, returns without recording an outcome. If that was the probe of
  a half-open breaker and nobody else records one, no call is admitted again:
  `CircuitBreaking.ForgottenProbe`,
  and exactly when it recovers: `CircuitBreaking.RecoversExactly`.
- internal/forwarder/health_checker.go:141-164 adds to the failure count and swaps the
  flag in two atomic steps, so a report may carry more than the threshold:
  `HealthRace.OvercountExample`, with the exact condition beside it.
- The 30-second clamp of the backoff (internal/forwarder/common.go:512-523) can never
  take effect: `CircuitBreaking.BackoffBound`.

## Model

| member | source | states |
|---|---|---|
| `ChainTheorems.InOrderDelivery` | internal/forwarder/entry.go:607-682 | For any number of relays and connections and any interleaving, the bytes handed to a connection's socket are an in-order prefix of the bytes read from the same connection's socket at the other end, both ways; bytes never cross connections. |
| `ChainTheorems.OneClosePerHop` | internal/forwarder/relay.go:177-271 | No hop carries, and no end receives, a second Close of an id in the same direction, although relays forget their marks. |
| `ChainTheorems.TablesAgree` | internal/forwarder/exit.go:143-192 | Whenever every queue is empty and no goroutine is between a critical section and its send, an id is registered at the entry exactly when it is registered at the exit; refused dials and crossing Closes included. |
| `ChainTheorems.NothingLost` | internal/forwarder/exit.go:264-356 | At rest, a connection open at both ends has delivered every byte that was read from the other end's socket. |
| `ChainTheorems.FramesFit` | internal/forwarder/common.go:35-37 | Every payload ever on a tunnel fits a frame, since one read never exceeds the frame limit. |
| `ChainTheorems.StepInv` | internal/forwarder/entry.go:684-700 | The inductive invariant over queue contents (life of an id, bytes in flight, Closes and marks) survives every step of either end, a relay, or the clean-up. |
| `ChainLeaving.EveryConnectionIsRead` | internal/forwarder/entry.go:607-682 | Over every run, a registered id has a goroutine at its own end that is dialling, reading or sending; when all is quiet, a registered connection is being read at both ends. |
| `ChainLeaving.EndedIsGone` | internal/forwarder/entry.go:632-700 | In every run in which the reader of a connection has ended, at either end: once all is quiet the connection is in neither table, and the end that it ended at has sent its Close. |
| `ChainLeaving.RefusedIsGone` | internal/forwarder/exit.go:143-291 | A connection whose dial fails, or whose write queue is full when data arrives, is closed at that end at once; once all is quiet it is in neither table. |
| `ChainLeaving.NothingAfterTheEnd` | internal/forwarder/common.go:232-308 | After a failed socket write or a hang-up, no further byte of the connection is accepted at that end, whatever still arrives. |
| `ChainLeaving.OneCloseUntilForgotten` | internal/forwarder/relay.go:177-239 | Until a relay forgets an id, it passes on at most one Close of it, both directions taken together. |
| `ChainSettles.TrafficDiesOut` | internal/forwarder/relay.go:208-239 | Without new socket events, every interleaving of the agents' own steps is bounded: each step lowers a measure of the work left. |
| `ChainSettles.Converges` | internal/forwarder/exit.go:398-412 | From any reachable state the agents alone bring the chain to rest; there both connection tables agree, no connection whose reader has ended at either end is in them, and every connection in them is being read at both ends. |
| `ChainDelivers.EveryByteArrives` | internal/forwarder/exit.go:264-356 | From any reachable state, the agents alone, with no dial refused and no queue full, bring the chain to rest with every connection that neither end has closed open at both, and every byte read from it at one end handed over at the other. |
| `ChainDelivers.ConnectionFromBeginningToEnd` | internal/forwarder/entry.go:607-700 | From any reachable state a further client can connect, have a request delivered and a reply brought back, and hang up at either end, and is then in neither table. |
| `ChainFrames.TunnelsCarryTheQueues` | internal/tunnel/tls_server.go:429-505 | At every moment of every run the bytes of a tunnel make the receiving read loop call its handler for exactly the messages in flight, in order. |
| `RelayForwarding.RelayStepEmits` | internal/forwarder/relay.go:114-191 | A relay step of the chain takes one message, passes on what the relay object emits for it, and touches no other hop. |
| `RelayForwarding.RelayForwarder.HandleInbound` | internal/forwarder/relay.go:114-191 | A message from the previous hop is passed on unless it is a Close of a marked id; a Close leaves its mark. |
| `RelayForwarding.RelayForwarder.HandleOutbound` | internal/forwarder/relay.go:194-222 | The same for a message from the next hop, with the same marks. |
| `RelayForwarding.RelayForwarder.CleanupClosedEntries` | internal/forwarder/relay.go:259-271 | The clean-up loop forgets exactly the marks older than five minutes, whatever the order of the map. |
| `RelayForwarding.CleanupIsExpiries` | internal/forwarder/relay.go:259-271 | A clean-up is a run of single mark expiries of the chain, so the run theorems cover it. |
| `EntryForwarding.EntryForwarder.Accept` | internal/forwarder/entry.go:607-640 | A connection gets an id that no TCP or UDP client has, and is registered with its tunnel. |
| `EntryForwarding.EntryForwarder.ForwardChunk` | internal/forwarder/entry.go:655-682 | One read becomes one Data message on the connection's tunnel and nothing else changes. |
| `EntryForwarding.EntryForwarder.CloseTCPConn` | internal/forwarder/entry.go:684-700 | A registered id is removed and exactly one Close goes out on the tunnel registered for it, which is one that exists; an unknown id changes nothing. |
| `EntryForwarding.EntryForwarder.HandleData` | internal/forwarder/entry.go:529-556 | Data reaches the write queue of its own connection, or nobody; a full queue closes the connection, with one Close on the tunnel registered for it. |
| `EntryForwarding.EntryForwarder.GetOrCreateUDPConnID` | internal/forwarder/entry.go:739-781 | A known client keeps its id and tunnel and is marked active; a new one gets a fresh id and the tunnel chosen for it; no other client is touched, and both maps stay inverse. |
| `EntryForwarding.EntryForwarder.HandleUDPData` | internal/forwarder/entry.go:559-585 | A reply finds its client by scanning the map and marks that client, and no other, as active. |
| `EntryForwarding.EntryForwarder.CloseUDPConn` | internal/forwarder/entry.go:784-794 | Closing an id removes it and its client from both maps. |
| `EntryForwarding.EntryForwarder.CollectIdle` | internal/forwarder/entry.go:814-826 | The first pass lists exactly the idle clients, each once. |
| `EntryForwarding.EntryForwarder.RemoveIdle` | internal/forwarder/entry.go:828-852 | Whatever happened between the passes, only clients that are still idle are removed, each with one Close on its own tunnel. |
| `ExitForwarding.ExitForwarder.HandleConnect` | internal/forwarder/exit.go:143-192 | A successful dial registers the id and starts its reader; a refused one answers with one Close and registers nothing. |
| `ExitForwarding.ExitForwarder.ForwardChunk` | internal/forwarder/exit.go:324-356 | One read from the target becomes one Data message of that connection. |
| `ExitForwarding.ExitForwarder.HandleData` | internal/forwarder/exit.go:264-291 | As at the entry: delivered whole to its own connection, dropped, or the connection is closed. |
| `ExitForwarding.ExitForwarder.CloseTCPConn` | internal/forwarder/exit.go:398-412 | A registered id is removed and answered with exactly one Close. |
| `UdpIndex.IdsAreStable` | internal/forwarder/entry.go:739-852 | Over any run of packets, replies, closes, clean-ups, TCP accepts and Stop, the two maps stay inverse and an id means the same client on the same tunnel until it is gone for good. |
| `UdpIndex.CloseEvictsOnlyItsClient` | internal/forwarder/entry.go:784-794 | Closing an id removes its own client and leaves every other client, id and tunnel as it was. |
| `UdpIndex.CleanInverse` | internal/forwarder/entry.go:814-852 | A clean-up removes exactly the listed clients that are idle, and the maps stay inverse. |
| `UdpIndex.CleanTellsEachOnce` | internal/forwarder/entry.go:828-852 | Every removed client is told with exactly one Close, on the tunnel of its own index, or the first where that is out of range, and nobody else is told. |
| `UdpIndex.RemovedExactlyWhenSilent` | internal/forwarder/entry.go:739-852 | Over any run that leaves a client alone after a packet of it or a reply to it: a clean-up that lists it removes it, with its id, if and only if more than two minutes have passed since then. |
| `UdpIndex.GoneForGood` | internal/forwarder/entry.go:419-448 | An id closed from the tunnel, forgotten by a stop or taken by a TCP connection is no UDP client's id in any run afterwards. |
| `UdpIndex.FlagSeparates` | internal/tunnel/protocol.go:112-124 | Below 2^63 the UDP flag is reversible and keeps UDP ids apart from every TCP id. |
| `RuleTheorems.RunReconciles` | internal/agent/hub.go:230-436 | Over every run of full, incremental and HTTP syncs and of restart and stop commands, with any starts failing: every running forwarder has a current rule, agrees with it on every compared field and uses no blocked protocol, and a status says running exactly when the forwarder runs. |
| `RuleTheorems.StartReconciled` | internal/agent/cache.go:16-47 | The invariant holds when the agent starts, also from a cached list with unique ids. |
| `RuleTheorems.StartKeepsExactly` | internal/agent/forwarder_manager.go:163-170 | Starting a rule keeps the invariant whatever the outcome if and only if the rule is not running yet. |
| `RuleTheorems.FullSyncConverges` | internal/agent/hub.go:230-343 | If the starts of a full sync succeed, the running set is exactly the unblocked rules. |
| `RuleTheorems.FullSyncIdempotent` | internal/agent/hub.go:230-343 | Repeating a full sync changes nothing, whatever starts would do, if and only if the first one got every unblocked rule running. |
| `RuleTheorems.HttpSyncAgrees` | internal/agent/forwarder_manager.go:70-161 | The fallback sync leaves the same forwarders and the same statuses of listed rules as a hub sync with the blocked list in force, although it has no check of its own for running forwarders. |
| `RuleTheorems.ResyncReports` | internal/agent/hub.go:271-338 | After a sync of the whole list every listed rule either runs and says so or is reported as failed. |
| `RuleTheorems.KeptForwarderIsCurrentExactly` | internal/agent/hub.go:347-373 | A forwarder that a full sync keeps has the current rule if and only if the modelled fields outside the comparison are unchanged too. |
| `RuleTheorems.StaleForwarder` | internal/agent/hub.go:345-373 | Two full syncs from the initial state after which a forwarder runs with another rule type than its rule has. |
| `RuleTheorems.StopIsForgotten` | internal/agent/hub.go:592-607 | The next sync of any list, full or over HTTP, starts a stopped rule again if and only if the list has it, its protocol is not blocked and the start succeeds. |
| `RuleEffects.BlockingExactly` | internal/agent/agent.go:155-213 | A new blocked list stops exactly the running forwarders whose current rule it blocks and reports exactly those as failed; every other rule keeps its forwarder and its status. |
| `RuleEffects.FullSyncExactly` | internal/agent/hub.go:230-343 | Rule by rule: a listed rule runs if and only if it is not blocked and either goes on unchanged or some start of it goes well, with the settings of the message or, unchanged, its old ones; it says running or failed accordingly; unlisted forwarders are gone with their statuses. The message's blocked list is in force, an empty one if it has none. |
| `RuleEffects.HttpSyncExactly` | internal/agent/forwarder_manager.go:70-161 | The same of a sync over HTTP, with the blocked list and the version left alone. |
| `RuleEffects.IncrementalExactly` | internal/agent/hub.go:389-436 | Rule by rule: added and updated ones are tried with their new settings, removed ones are gone with their status, newly blocked ones have failed, and every other rule keeps its forwarder and its status. |
| `RuleEffects.MergedExactly` | internal/agent/forwarder_manager.go:584-622 | The rules are the updated over the added over those that were there and not removed. |
| `RuleEffects.RestartExactly` | internal/agent/hub.go:551-589 | The restarted rule runs if and only if it is listed, not blocked and its start goes well, and says so; no other rule is touched. |
| `RuleEffects.FromCacheExactly` | internal/agent/cache.go:16-47 | The cached rules and the cached blocked list are in force, and exactly the rules that are not blocked and whose start goes well run. |
| `RuleVersions.DeltasFold` | internal/agent/hub.go:166-227 | Over any delivery order with losses and duplicates, the rules are the snapshot with exactly those deltas applied that were newer than everything delivered before; applied versions strictly increase. |
| `RuleVersions.StaleChangesNothing` | internal/agent/hub.go:175-190 | A stale or repeated delta changes no part of the state. |
| `RuleVersions.SnapshotThenDeltas` | internal/agent/hub.go:191-224 | A full sync is taken whatever its version, and the deltas after it fold over its rules. |
| `Rules.RuleConfigChanged` | internal/agent/hub.go:345-373 | Reports a change exactly when one of the fifteen compared fields or the list of exit agents differs. |
| `Rules.ExitAgentsEqual` | internal/agent/hub.go:376-386 | The element-wise loop decides equality of the lists. |
| `Rules.RuleSyncDataToRule` | internal/agent/hub.go:440-489 | The rule carries the hub's fields and the online exit agents in order. |
| `Rules.ConvertedKeeps` | internal/agent/hub.go:440-489 | The rule has the id and the fields of the message, no single exit agent, and exactly the online exit agents with their weights, in order. |
| `Rules.RuleMapHoldsLast` | internal/agent/hub.go:231-242 | Of several rules with one id the map keeps the last. |
| `Rules.IsProtocolBlocked` | internal/agent/agent.go:215-236 | True exactly when some entry equals the protocol up to case, an empty protocol counting as tcp. |
| `Rules.BlockedMeans` | internal/agent/agent.go:188-236 | An entry blocks a protocol if and only if it spells it letter by letter in any case, an empty protocol being spelled tcp. |
| `RuleSync.Agent.HandleConfigSync` | internal/agent/hub.go:166-227 | Full syncs always apply, incremental ones only when newer; the new state is the specified one, whatever the lists; the list of rules has unique ids after every sync that applies. |
| `RuleSync.Agent.HandleFullSync` | internal/agent/hub.go:230-343 | The loops, in any order of the maps, reach the one specified state. |
| `RuleSync.Agent.StopOutdatedForwarders` | internal/agent/hub.go:271-297 | The loop stops exactly the removed, forbidden and edited forwarders and lists the edited ones once each. |
| `RuleSync.Agent.HandleIncrementalSync` | internal/agent/hub.go:389-436 | Blocked protocols, removals, then one update after the other and one addition after the other, then the list: the specified state, also for lists that repeat an id. |
| `RuleState.IncrementalUnique` | internal/agent/hub.go:389-436 | With unique ids in each list the order within a list does not matter. |
| `RuleSync.Agent.UpdateRulesList` | internal/agent/forwarder_manager.go:584-622 | The list becomes (old minus removed) plus added plus updated, with unique ids. |
| `RuleSync.Agent.SyncRules` | internal/agent/forwarder_manager.go:70-161 | The fallback sync reaches the specified state for any list, although it goes by the forwarders that ran before its last loop. |
| `RuleState.HttpSyncUnique` | internal/agent/forwarder_manager.go:70-161 | With unique ids its result depends on the set of rules only, not on their order. |
| `RuleSync.Agent.StartForwarder` | internal/agent/forwarder_manager.go:163-175 | A blocked or failed start leaves a failed status and no forwarder, a successful one a running status and the forwarder. |
| `RuleSync.Agent.StopForwarder` | internal/agent/forwarder_manager.go:513-547 | The forwarder goes; the status changes only when asked. |
| `RuleSync.Agent.UpdateBlockedProtocols` | internal/agent/agent.go:155-213 | Exactly the forwarders whose current rule is now blocked stop, with a failed status; every other rule keeps its forwarder and its status. |
| `RuleSync.Agent.HandleRestartRuleCommand` | internal/agent/hub.go:551-589 | A listed rule is stopped and started once; an unknown one is only stopped. |
| `RuleSync.Agent.StartFromCache` | internal/agent/cache.go:16-47 | The cached list and blocked protocols are in force and every entry has been tried once, in order. |
| `CircuitBreaking.RunsStayOk` | internal/forwarder/common.go:361-523 | Over every run of fewer than 2^31 calls on a clock that never goes back, late results included: the failure bands per state, one probe per half-open episode, backoff 100ms * 2^d with d at most 6 and at most failures - 3, and d doublings take at least 100ms * (2^d - 1). |
| `CircuitBreaking.FailureKeepsUnlessWrapping` | internal/forwarder/common.go:474-509 | A failure keeps the invariant if and only if the 32-bit failure counter is not at its maximum. |
| `CircuitBreaking.BackoffBound` | internal/forwarder/common.go:512-523 | The backoff never exceeds 6.4 seconds, so the 30-second clamp is never reached. |
| `CircuitBreaking.WaitAgreesWithAllow` | internal/forwarder/common.go:527-550 | A positive BackoffDuration means Allow refuses; in Open and Blocked it is exactly the time until Allow admits; in HalfOpen it is always zero and nobody is admitted. |
| `CircuitBreaking.ProbesWait` | internal/forwarder/common.go:401-441 | A probe out of Blocked comes at least 30 seconds after the last failure, one out of Open at least the backoff. |
| `CircuitBreaking.BlockedProbesApart` | internal/forwarder/common.go:424-434 | Over any run, two probes out of Blocked are at least 30 seconds apart. |
| `CircuitBreaking.RecoversExactly` | internal/forwarder/common.go:401-509 | Over any run, a half-open breaker admits anybody again if and only if an outcome is recorded. |
| `CircuitBreaking.ForgottenProbe` | internal/forwarder/exit.go:208-223 | After any run from the start that leaves the breaker half-open: if neither the probe, as after a failed address look-up, nor anyone else records an outcome, no later call is ever admitted. |
| `CircuitBreaking.ReachProbe` | internal/forwarder/common.go:401-509 | A run from the start that leaves the breaker half-open with one probe admitted. |
| `CircuitHistory.StateByFailures` | internal/forwarder/common.go:401-509 | Over every run: closed with fewer than three failures since the last success, open with three to nine, blocked from ten on, half-open with three or more, not counting successes that come late; waits are measured from the last failure, in whatever state it was recorded. |
| `CircuitHistory.SuccessForgets` | internal/forwarder/common.go:454-470 | From any closed breaker: after a success, fewer than three failures leave it closed and admitting everybody, whatever calls come in between; the third opens it, and for 100 milliseconds nobody is admitted. |
| `CircuitHistory.AdmittedExactly` | internal/forwarder/common.go:401-451 | After every run, who is admitted and when, in terms of the state and the time of the last failure. |
| `CircuitHistory.ClosesExactly` | internal/forwarder/common.go:454-470 | A breaker that is not closed closes with a success in half-open, and in no other way. |
| `CircuitHistory.DownFromTheStart` | internal/forwarder/common.go:474-523 | A target that stays down, probed at any permitted times: the waits are 100ms * 2^n up to 6.4 seconds, the tenth failure in all blocks it, and then the wait is 30 seconds. |
| `CircuitBreaking.CircuitBreaker.AllowAt` | internal/forwarder/common.go:401-451 | The state machine of Allow, with the half-open count. |
| `CircuitBreaking.CircuitBreaker.RecordSuccess` | internal/forwarder/common.go:454-470 | Closes from HalfOpen, resets in Closed, changes nothing otherwise. |
| `CircuitBreaking.CircuitBreaker.RecordFailure` | internal/forwarder/common.go:474-523 | Counts, blocks at ten, reopens with twice the backoff, opens at three. |
| `Health.HealthIsHistory` | internal/forwarder/health_checker.go:141-194 | A tunnel is unhealthy exactly when the latest run to fill its threshold was a run of failures; wrapping 32-bit counters make no difference. |
| `Health.ReportsAlternate` | internal/forwarder/health_checker.go:141-194 | With outcomes recorded one at a time: change reports strictly alternate, the first is unhealthy, and an unhealthy one carries exactly the threshold as its count. |
| `HealthRace.ReportCount` | internal/forwarder/health_checker.go:141-164 | With any number of goroutines recording failures on a healthy tunnel, atomic by atomic: at most one report, with at least the threshold as its count, and exactly the threshold where no failure is counted while an earlier one that filled the threshold is on its way to the swap. |
| `HealthRace.OutOfTurnOvercounts` | internal/forwarder/health_checker.go:141-164 | Wherever a failure is counted out of that turn, it may go on to report a count above the threshold. |
| `HealthRace.OvercountExample` | internal/forwarder/health_checker.go:141-164 | A run with threshold 2 whose report carries 3. |
| `Health.Configured` | internal/forwarder/health_checker.go:90-123 | Each threshold on its own: the configured one, or the default when it is missing or zero. |
| `Health.HealthChecker.RecordFailure` | internal/forwarder/health_checker.go:141-164 | The tunnel's state stays the replay of its own history; an index out of range changes nothing; the result says whether it just became unhealthy. |
| `Health.HealthChecker.RecordSuccess` | internal/forwarder/health_checker.go:174-194 | The same for successes. |
| `Health.HealthChecker.GetHealthyIndices` | internal/forwarder/health_checker.go:205-213 | Exactly the healthy tunnels, in index order. |
| `Selection.BestIsFirstMaximum` | internal/forwarder/entry.go:188-248 | The failover choice is the first candidate of maximum weight; a zero weight wins only if all are zero. |
| `Selection.BestOfListed` | internal/forwarder/entry.go:210-248 | Among listed indices, existing or not, in any order and with repeats: the choice is at the first place of the list with an existing tunnel of maximum weight. |
| `Selection.SelectFailover` | internal/forwarder/entry.go:188-248 | The scan with a best and a backup variable finds the first tunnel of maximum weight, among all or among the existing indices given, and the first tunnel if there are none. |
| `Selection.SelectWeighted` | internal/forwarder/entry.go:253-323 | For any number of tunnels and indices: the loop over running totals makes the choice of 32-bit arithmetic, and the call fails exactly when several candidates have a sum that wraps to zero; where the weights of the candidates add up to less than 2^32 it makes the proportional choice. |
| `Selection.DrawnIsProportional` | internal/forwarder/entry.go:253-323 | With up to 65,537 candidates, or whenever the sum fits 32 bits, that choice is the proportional one and the call does not fail. |
| `Selection.FallbackUnreachable` | internal/forwarder/entry.go:310-323 | When the sum fits 32 bits the loop always finds its candidate: the statements behind it are never reached. |
| `Selection.ExactShare` | internal/forwarder/entry.go:310-318 | Of as many draws as the weights of the candidates add up to, each candidate is chosen by exactly as many as its own weight says. |
| `Selection.FairOverAllDraws` | internal/forwarder/entry.go:310-318 | Over n full periods of the modulus and a rest, each candidate is chosen between n and n + 1 times its own weight. |
| `Selection.UniformWithoutWeights` | internal/forwarder/entry.go:271-300 | Where no candidate has weight, each is chosen by one draw in as many as there are candidates. |
| `Selection.SumNeverWrapsUpTo` | internal/forwarder/entry.go:259-285 | The 32-bit sum of n weights cannot overflow if and only if n is at most 65,537. |
| `Selection.WrapsToZero` | internal/forwarder/entry.go:311 | With 65,538 positive weights the modulus can be zero. |
| `Selection.ChosenIsHealthy` | internal/forwarder/entry.go:139-183 | While any tunnel is healthy, the chosen one is. |
| `Selection.FailoverChoosesHeaviest` | internal/forwarder/entry.go:139-248 | By priority, the chosen tunnel is the first of the heaviest healthy ones. |
| `Selection.HealthyShare` | internal/forwarder/entry.go:139-318 | By weight, the healthy tunnels share the draws among themselves, each getting exactly its weight of one period. |
| `Selection.SelectTunnel` | internal/forwarder/entry.go:139-183 | The dispatch over strategies and healthy sets makes that choice. |
| `Selection.HealthySetShrinks` | internal/forwarder/entry.go:619-649 | With selection, Connect and recording as one event, the set of healthy tunnels only shrinks while it is non-empty. |
| `Selection.FailsOver` | internal/forwarder/entry.go:619-679 | Once the preferred tunnel has failed as often in a row as the threshold says, for new connections or old ones, it is down, no other tunnel has been touched, and the next connection goes to another healthy tunnel if there is one. |
| `Frames.DecodeEncoded` | internal/tunnel/protocol.go:134-175 | A frame at the head of a stream decodes to itself, and nothing behind it is read. |
| `Frames.EncodeDecoded` | internal/tunnel/protocol.go:134-175 | Every successful decode re-encodes to exactly the bytes consumed. |
| `Frames.CutFrameFails` | internal/tunnel/protocol.go:149-175 | No proper prefix of a frame decodes. |
| `Frames.CleanEndExactly` | internal/tunnel/protocol.go:149-175 | The end-of-file error is returned if and only if nothing was left or the cut is right behind the header of a frame with a payload. |
| `Frames.CutStream` | internal/tunnel/protocol.go:149-175 | A stream cut after any number of bytes gives exactly the whole frames in front of the cut, and ends with the end-of-file error if and only if the cut is between frames or right behind the header of a frame with a payload. |
| `Frames.CleanEndInsideFrame` | internal/tunnel/tls_server.go:438-444 | A concrete truncated frame that the read loop takes for a clean end. |
| `Frames.StreamRoundTrip` | internal/tunnel/protocol.go:134-175 | Any sequence of encoded frames parses back to exactly that sequence, then a clean end. |
| `Frames.QueueOverWire` | internal/tunnel/tls_server.go:486-505 | Any queue of protocol messages, sent as frames, makes the dispatch call the handler for exactly those messages. |
| `Frames.DispatchOthers` | internal/tunnel/tls_server.go:486-505 | A ping is answered, a Connect with a payload is a call of its own, and unknown types are ignored. |
| `Frames.Encode` | internal/tunnel/protocol.go:134-146 | The buffer is header and payload; an oversized payload is refused. |
| `Frames.DecodeMessage` | internal/tunnel/protocol.go:149-175 | What is decoded, which error is given, and what is left of the stream. |
| `Frames.FrameLayout` | internal/tunnel/protocol.go:134-146 | Byte by byte: the type, eight bytes of the id and four of the length with the most significant first, and the payload; refused if and only if that is over 64 KiB. |
| `Frames.OversizedForGood` | internal/tunnel/protocol.go:149-165 | A stream refused as oversized is refused whatever may still come, behind a whole length field and with no byte of what follows taken. |
| `Frames.ShortDecodesLater` | internal/tunnel/protocol.go:149-175 | Behind a whole header, the two end errors mean only that the stream is too short: some continuation decodes. |
| `Frames.WriteLengthPrefixed` | internal/tunnel/tls_utils.go:40-57 | Four length bytes and the data, or a refusal that writes nothing. |
| `Frames.ReadLengthPrefixed` | internal/tunnel/tls_utils.go:19-36 | What is read, which error is given, and what is left of the stream. |
| `Frames.UnprefixPrefixed` | internal/tunnel/tls_utils.go:19-57 | Reading undoes writing and takes no byte of what follows. |
| `Frames.PrefixUnprefixed` | internal/tunnel/tls_utils.go:19-57 | Whatever is read re-encodes to exactly the bytes consumed, so an oversized length is never read. |
| `Frames.PrefixLayout` | internal/tunnel/tls_utils.go:40-57 | Four bytes of the length, the most significant first, and the data; refused if and only if that is over 64 KiB. |
| `Handshake.CopiesUndoEachOther` | internal/forward/tunnel_ping.go:31-70 | Each of the two copies of the obfuscation undoes the other for every padding a length byte can announce, if and only if padding or data is not empty. |
| `Handshake.ObfuscateDeobfuscated` | internal/tunnel/protocol.go:17-56 | Whatever deobfuscates is the obfuscation of its result with the padding it came with. |
| `Wire.XorIsBitwise` | internal/tunnel/protocol.go:28-34 | Each bit of a masked byte is set exactly where data and key differ. |
| `Handshake.SessionRoundTrip` | internal/tunnel/protocol.go:17-56 | A length-prefixed obfuscated handshake followed by any frames parses back to exactly both, with nothing over-read. |
| `Handshake.ObfuscateHandshake` | internal/tunnel/protocol.go:17-36 | Length byte, padding of 8 to 64 bytes, and each data byte masked with the key byte at its own position, over and over. |
| `Handshake.EveryPadding` | internal/tunnel/protocol.go:19-22 | Every padding length from 8 to 64 bytes can be drawn. |
| `Handshake.DeobfuscateHandshake` | internal/tunnel/protocol.go:39-56 | Unmasks what follows the padding; too short if and only if there are fewer than two bytes, invalid padding if and only if the padding would reach over the end. |
| `Handshake.PingFrame` | internal/forward/tunnel_ping.go:312-315 | The hand-built ping is the encoding of a ping frame. |
| `Handshake.LongestHandshake` | internal/tunnel/tls_utils.go:40-43 | A handshake can be sent if and only if it, its padding and the length byte fit 64 KiB. |
| `TrafficRuns.TrafficIsConserved` | internal/agent/reporting.go:133-259 | Per rule and direction, over every run of counting, concurrent reports, failures and forwarder changes: bytes counted are in a counter, in a report, pending, delivered, dropped over the limit or lost with a removed forwarder or the final report; pending ids stay unique and at most 1000. |
| `TrafficRuns.NothingDropped` | internal/agent/reporting.go:204-209 | With at most 1000 rules over the run nothing is ever dropped. |
| `TrafficRuns.EverythingDelivered` | internal/agent/reporting.go:133-194 | Once reports and counters are empty, each byte counted has been delivered exactly once, but for those dropped or given up. |
| `TrafficDelivery.OneGoodReport` | internal/agent/reporting.go:133-194 | After any run with any failed reports: one more report that goes through leaves no counter and nothing pending, drops and loses nothing, and then each byte ever counted has been delivered exactly once, but for those dropped or given up before it. |
| `TrafficDelivery.DropsOnlyOverTheLimit` | internal/agent/reporting.go:197-210 | A failed report keeps the newest 1000 items and drops exactly the older ones. |
| `Traffic.MergeTrafficItems` | internal/agent/reporting.go:221-259 | The loop with the index map puts each item on the last item of its rule, or at the end. |
| `Traffic.MergeTotal` | internal/agent/reporting.go:221-259 | Merging adds up the bytes of every rule in each direction. |
| `Traffic.MergeUnique` | internal/agent/reporting.go:221-259 | Merging lists with unique ids gives unique ids: those of both. |
| `Traffic.MergeKeepsOrder` | internal/agent/reporting.go:221-259 | Merging keeps the order: first the rules of the first list, then those only the second one has. |
| `Traffic.Pending.Save` | internal/agent/reporting.go:197-210 | The merged list loses only its oldest items, and only those over the limit of 1000. |
| `Traffic.Pending.TakeInto` | internal/agent/reporting.go:149-155 | A report takes all pending items with it. |
| `Traffic.Counter.GetAndReset` | internal/forwarder/common.go:346-350 | Both values are handed over and the counters restart at zero. |
| `CachePersist.UpdatesStayAnnounced` | internal/agent/cache.go:81-144 | In every run whose unsignalled changes are covered: if memory differs from the last snapshot taken, a signal is queued, a changer still owes its signal, or the loop has yet to copy. |
| `CachePersist.LoopAdvances` | internal/agent/cache.go:92-113 | Unless all is saved the loop can take a step, and every step of it lowers a rank. |
| `CachePersist.LoopSettles` | internal/agent/cache.go:92-144 | Once everyone has signalled, the loop alone comes to rest with memory as its last snapshot; if it has anything to do and its save succeeds, the file is the memory too. |
| `CachePersist.UnsignalledChangeIsLost` | internal/agent/tunnel_manager.go:364-376 | The change of updateRuleCache, made at rest: the file stays as it was and nothing of the loop can run. |
| `CachePersist.LostExactly` | internal/agent/tunnel_manager.go:364-376 | Over any run: after the last step that is not the loop's, the rules in memory are lost if and only if that step was a change without a signal, to rules other than those last copied, made while nothing was announced. |
| `CachePersist.SilentChangeReachesFile` | internal/agent/cache.go:81-144 | Whatever was changed without a signal before, as soon as anybody has announced a change the goroutines that owe a signal and the loop can bring the whole memory into the file. |
| `CachePersist.FileIsWhatWasCopied` | internal/agent/cache.go:115-144 | Whatever changes in between or since: a save that goes through writes the rules as they were when they were copied and the endpoints as they were when they were, and one that fails leaves the file. |
| `CachePersist.Persister.PersistRuleCache` | internal/agent/cache.go:81-88 | The non-blocking send leaves exactly one signal in the channel. |
| `CachePersist.Persister.WriteRuleCache` | internal/agent/cache.go:115-139 | The snapshot is the rules and then the endpoints, each as it is when copied. |
| `RuleCache.CrashKeepsOldOrNew` | internal/rulecache/rulecache.go:73-133 | After a crash behind any file-system call of Save, Load finds what it found before or the new snapshot, whole. |
| `RuleCache.SavedMeansReplaced` | internal/rulecache/rulecache.go:116-133 | Save reports success exactly when the cache file is the new one; otherwise the old one is untouched. |
| `RuleCache.SavesExactly` | internal/rulecache/rulecache.go:73-133 | For every fate of the calls: Save succeeds if and only if it sees no link, directory, JSON and a fresh temporary file can be made, all of the data fits, and close and rename go well; where it fails behind its own temporary file, that file is removed if it can be. |
| `RuleCache.SavesUnlessLinked` | internal/rulecache/rulecache.go:76-114 | When no call fails, Save succeeds if and only if neither path is a link; a leftover temporary file does not matter. |
| `RuleCache.NextSaveRecovers` | internal/rulecache/rulecache.go:97-132 | After a crash anywhere in one Save the next one goes through, and its snapshot is what Load finds. |
| `RuleCache.LoadsWhatWasSaved` | internal/rulecache/rulecache.go:46-133 | For every snapshot and any failing calls: what a successful Save wrote is loaded back if and only if it has a rule, an unsuccessful one leaves Load as it was, and with no failing call and no link Save is successful. |
| `RuleCache.LoadsThroughLinks` | internal/rulecache/rulecache.go:46-61 | A cache file that is a link is read through. |
| `RuleCache.EmptySaveForgets` | internal/rulecache/rulecache.go:59-61 | Saving an empty rule list makes the cache unusable. |
| `RuleCache.CacheFile.Save` | internal/rulecache/rulecache.go:73-133 | The code takes exactly the steps of the specified program. |
| `HotSwap.AllBoundToNewest` | internal/tunnel/tls_server.go:275-334 | In any interleaving of handler replacements with any number of setups in which every last write is in time (so wherever no setup sees a second replacement), once the update loops are done every finished connection is bound to its rule's newest handler. |
| `HotSwap.OneEachIsInTime` | internal/tunnel/tls_server.go:321-334 | Where no setup sees a second replacement, every last write is in time. |
| `HotSwap.BoundToNewestExactly` | internal/tunnel/tls_server.go:275-334 | For one connection in any run: with no update loop of its rule pending it is bound to the newest handler if and only if the step that completed its setup was in time or the handler was replaced again afterwards. |
| `HotSwap.RebindOkExactly` | internal/tunnel/tls_server.go:321-334 | The last write of a setup keeps the invariant if and only if it writes the current handler or an update loop is still to come. |
| `HotSwap.UndisturbedSetup` | internal/tunnel/tls_server.go:275-334 | While nobody replaces the rule's handler, a setup finds the newest one, registers with it, needs no second write and ends bound to it, whatever other connections and rules do in between. |
| `HotSwap.TwoReplacements` | internal/tunnel/server.go:318-339 | A run from the empty server in which two replacements during one setup leave the connection on the handler in between. |
| `HotSwap.LeavingTellsTheOldHandler` | internal/tunnel/tls_server.go:343-346 | A run from the empty server after which a connection bound to the new handler tells the handler of its setup when it leaves. |
| `HotSwap.TellsCurrentStep` | internal/tunnel/tls_server.go:343-346 | From a state where the connection tells its current handler, a step keeps that if and only if it is neither its leaving nor an update loop that moves it. |
| `HotSwap.SetupTellsCurrent` | internal/tunnel/tls_server.go:321-346 | Over any run from the end of a setup: a leaving connection tells the handler it is bound to if and only if no update loop has moved it to another one. |
| `HotSwap.TunnelServer.AddHandlerUpdate` | internal/tunnel/server.go:114-131 | The loop over the connections, in any order, moves exactly the rule's connections to its handler. |
| `HotSwap.TunnelServer.AddHandlerInstall` | internal/tunnel/tls_server.go:82-88 | The handler is replaced, and an update follows if there was one before. |
| `HotSwap.TunnelServer.DoubleCheckConn` | internal/tunnel/tls_server.go:321-328 | The setup notices a handler other than the one it found. |
| `WriteQueue.PrefixBeforeClose` | internal/forwarder/common.go:232-308 | Until Close closes the queue, the bytes on the socket are a prefix of the bytes accepted. |
| `WriteQueue.SubsequenceAlways` | internal/forwarder/common.go:232-322 | At any time the socket holds whole accepted buffers in order, the last perhaps cut by a write error. |
| `WriteQueue.IdleMeansWritten` | internal/forwarder/common.go:232-280 | When the writer waits on an empty open queue, everything accepted has been written and counted. |
| `WriteQueue.EverythingGetsWritten` | internal/forwarder/common.go:232-280 | From any reachable state of an open queue with a working socket, the writer alone gets everything accepted onto the socket and counted. |
| `WriteQueue.NothingAcceptedWithoutWriter` | internal/forwarder/common.go:266-308 | Once the writer is gone, after a failed socket write as after Close, no Write is accepted any more. |
| `WriteQueue.TrafficIsBytesWritten` | internal/forwarder/common.go:260-264 | The traffic counted is the number of bytes on the socket whenever the writer is between writes. |
| `WriteQueue.EachBufferReturnedOnce` | internal/forwarder/common.go:266-322 | No buffer is returned to the pool twice; once Close and the writer are done, each has been returned. |
| `WriteQueue.ConnState.Write` | internal/forwarder/common.go:286-308 | Accepted exactly when the connection is not closed and there is room. |
| `WriteQueue.Fill` | internal/forwarder/common.go:245-258 | The drain steps of the writer fill the batch or empty the queue, and keep the order. |
| `WriteQueue.ConnState.FinishBatch` | internal/forwarder/common.go:260-279 | Counts, returns every buffer, and gives up after an error. |
| `WriteQueue.ConnState.Close` | internal/forwarder/common.go:312-322 | Only the first Close acts: it marks, drains into the pool and closes. |
| `WriteQueue.CloseIsSteps` | internal/forwarder/common.go:312-322 | Close is a run of the step system. |
| `WriteQueue.FinishIsSteps` | internal/forwarder/common.go:260-279 | So is what follows a socket write. |

## Left out

Tunnel protocol

- Disconnect and reconnect, `OnTunnelDisconnect`, `Stop` of a forwarder and write errors of a tunnel: queues are reliable for a run, and the agreement of the tables does not hold across them.
- Several tunnels per entry in one run: the run theorems follow one chain; which tunnel a connection uses is part of `EntryForwarding`.
- The UDP flows across the tunnel: the exit forgets idle UDP clients without telling the entry, so the two ends need not agree.
- Ids of 2^63 and more, which would run into the UDP flag.
- `boundary_relay.go`, `direct.go`, `direct_chain.go` and `smux_*.go`: the first repeats the exit, the others copy between sockets.
- `TablesAgree` is about registered ids, not about whether a registered connection's write queue has failed.

Rules

- `StartForwarder`: the branches per rule type are one parameter that says whether the start succeeds; the error text of a status and the time of the last sync are not kept.
- `RunReconciles`: asks the server for unique ids in each incremental list and in each HTTP list, and that a rule to be added neither runs (unless it is removed in the same message) nor is updated in the same message. The handlers themselves are specified for any list; a rule listed twice in one loop gets the same answer to both starts.
- `IncrementalExactly`: for messages that ask for no more than `RunReconciles` allows; `FullSyncExactly` and `HttpSyncExactly` for the states that runs reach.
- `HandleRestartRuleCommand`: asks for a list of unique ids, which every sync from the hub leaves.
- `KeptForwarderIsCurrentExactly`: the health-check settings that a load-balancing entry is built from (internal/agent/forwarder_manager.go:221) are kept beside the rules and are outside the comparison too; they are not part of the modelled rule.
- Handlers as single steps: two syncs running at the same time are not covered.
- `updateRuleCache`, which changes a rule without restarting anything, is not a step of the runs.
- Tunnels and the client token; full and HTTP syncs stop forwarders without their tunnels, so nothing is said about stored tunnels.
- Case folding beyond ASCII letters in protocol names.
- Fields of a rule that no forwarder is built from, such as its name, its remark and its byte totals.

Breaker, health, selection

- Each breaker method is one step; between the single atomics of one method the one-probe claim does not hold.
- `RunsStayOk`: fewer than 2^31 calls, because of the wrapping counter; `FailureKeepsUnlessWrapping` says exactly where it ends.
- `ReportsAlternate`: each health method is one step; `HealthRace` covers single atomics, for failures only and up to the first report. With successes in between, a report can also follow counts that a reset has overtaken.
- The health reports' texts, latencies and time stamps, and the goroutine that sends them.
- A random number is an arbitrary draw, so nothing is said about its quality.
- `SelectTunnel`: asks for at most 65,537 tunnels, the exact bound of `SumNeverWrapsUpTo`.
- `FailsOver`: by priority; by weight the choice is a draw.
- `HealthySetShrinks`: two connections between selection and recording at the same time are not covered.

Wire formats

- JSON, TLS, WebSocket framing and the key-exchange message; a failing writer in `WriteLengthPrefixed`.
- The random source: padding bytes are arbitrary.

Traffic

- A failed send is taken to have delivered nothing; a send that arrives and still reports an error would count twice.
- Bytes counted after a forwarder was removed; 64-bit overflow of the totals.

Rule cache

- The JSON encoding is a parameter; the time stamp of a snapshot, file modes and directories are left out. Loss of data that the operating system has not written yet is not a crash in this model.
- The two parts of a snapshot are copied under two locks and may be of different moments.

Handler replacement

- `RemoveHandler`, server shutdown, SMUX sessions and senders; handlers of a rule are replaced one at a time.
- `AllBoundToNewest`: for runs whose last writes are in time; `BoundToNewestExactly` says what happens in the others.

Write queue

- `EachBufferReturnedOnce`: the buffer of a Write that times out is returned by that Write itself, within its one step, and is not numbered.
- `Write`: one step. Between its look at the closed flag and its send the program can meet a channel that Close has closed; that panic is outside this model.
