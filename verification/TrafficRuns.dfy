/**
 * Traffic accounting over whole runs: any number of reports at once, each
 * swapping one counter at a time while connections go on counting.
 */
module TrafficRuns {
  import opened Traffic

  datatype Counts = Counts(up: nat, down: nat)

  /** half: the upload counter of a forwarder has been swapped, its download counter has not. */
  datatype Half = Neither | Swapped(id: RuleID, up: nat)

  /** Collecting holds the forwarders' read lock; Collected has released it. */
  datatype Phase = Collecting | Collected | Sending | Done

  datatype Report = Report(phase: Phase, visited: set<RuleID>, half: Half, items: seq<Item>)

  /** The last four fields are history: bytes counted, accepted by the server, dropped, and given up. */
  datatype Books = Books(
    counters: map<RuleID, Counts>,
    reports: seq<Report>,
    pending: seq<Item>,
    counted: seq<Item>,
    delivered: seq<Item>,
    dropped: seq<Item>,
    lost: seq<Item>)

  const EMPTY := Books(map[], [], [], [], [], [], [])

  datatype Step =
    | AddForwarder(id: RuleID)
    | RemoveForwarder(id: RuleID)        // its unreported bytes go with it
    | Count(id: RuleID, up: nat, down: nat)
    | Begin
    | SwapUpload(r: nat, id: RuleID)
    | SwapDownload(r: nat)
    | Release(r: nat)
    | TakePending(r: nat)
    | Deliver(r: nat)
    | Fail(r: nat)
    | FailFinally(r: nat)                // the report at shutdown does not save

  predicate InPhase(b: Books, r: nat, p: Phase) {
    r < |b.reports| && b.reports[r].phase == p
  }

  predicate Unlocked(b: Books) {
    forall r :: 0 <= r < |b.reports| ==> !b.reports[r].phase.Collecting?
  }

  predicate Enabled(b: Books, s: Step) {
    match s
    case AddForwarder(id) => id !in b.counters && Unlocked(b)
    case RemoveForwarder(id) => id in b.counters && Unlocked(b)
    case Count(id, up, down) => id in b.counters
    case Begin => true
    case SwapUpload(r, id) =>
      InPhase(b, r, Collecting) && b.reports[r].half.Neither? && id in b.counters && id !in b.reports[r].visited
    case SwapDownload(r) =>
      InPhase(b, r, Collecting) && b.reports[r].half.Swapped? && b.reports[r].half.id in b.counters
    case Release(r) => InPhase(b, r, Collecting) && b.reports[r].half.Neither? && b.counters.Keys <= b.reports[r].visited
    case TakePending(r) => InPhase(b, r, Collected)
    case Deliver(r) => InPhase(b, r, Sending)
    case Fail(r) => InPhase(b, r, Sending)
    case FailFinally(r) => InPhase(b, r, Sending)
  }

  function WithReport(b: Books, r: nat, x: Report): Books
    requires r < |b.reports|
  {
    b.(reports := b.reports[r := x])
  }

  const FINISHED := Report(Done, {}, Neither, [])

  function Next(b: Books, s: Step): Books
    requires Enabled(b, s)
  {
    match s
    case AddForwarder(id) => b.(counters := b.counters[id := Counts(0, 0)])
    case RemoveForwarder(id) =>
      b.(counters := b.counters - {id}, lost := b.lost + [Item(id, b.counters[id].up, b.counters[id].down)])
    case Count(id, up, down) =>
      var c := b.counters[id];
      b.(counters := b.counters[id := Counts(c.up + up, c.down + down)], counted := b.counted + [Item(id, up, down)])
    case Begin => b.(reports := b.reports + [Report(Collecting, {}, Neither, [])])
    case SwapUpload(r, id) =>
      var c := b.counters[id];
      WithReport(b, r, b.reports[r].(half := Swapped(id, c.up))).(counters := b.counters[id := c.(up := 0)])
    case SwapDownload(r) =>
      var x := b.reports[r];
      var id, c := x.half.id, b.counters[x.half.id];
      WithReport(b, r, Collect(x, c.down)).(counters := b.counters[id := c.(down := 0)])
    case Release(r) => WithReport(b, r, b.reports[r].(phase := Collected))
    case TakePending(r) =>
      var items := Merge(b.pending, b.reports[r].items);
      WithReport(b, r, if items == [] then FINISHED else b.reports[r].(phase := Sending, items := items)).(pending := [])
    case Deliver(r) => WithReport(b, r, FINISHED).(delivered := b.delivered + b.reports[r].items)
    case Fail(r) =>
      var all := Merge(b.pending, b.reports[r].items);
      WithReport(b, r, FINISHED).(pending := all[Overflow(all)..], dropped := b.dropped + all[..Overflow(all)])
    case FailFinally(r) => WithReport(b, r, FINISHED).(lost := b.lost + b.reports[r].items)
  }

  /** Both counters of a forwarder are read: an item, unless there was nothing. */
  function Collect(x: Report, down: nat): Report
    requires x.half.Swapped?
  {
    var item := Item(x.half.id, x.half.up, down);
    x.(half := Neither, visited := x.visited + {item.ruleID},
       items := if item.up > 0 || item.down > 0 then x.items + [item] else x.items)
  }

  // ---- Where bytes can be ----

  function InCounter(b: Books, id: RuleID, d: Direction): nat {
    if id !in b.counters then 0 else if d.Upload? then b.counters[id].up else b.counters[id].down
  }

  function InReport(x: Report, id: RuleID, d: Direction): nat {
    Total(x.items, id, d) + if x.half.Swapped? && x.half.id == id && d.Upload? then x.half.up else 0
  }

  function InReports(rs: seq<Report>, id: RuleID, d: Direction): nat {
    if rs == [] then 0 else InReports(rs[..|rs| - 1], id, d) + InReport(rs[|rs| - 1], id, d)
  }

  lemma {:induction false} ReportUpdated(rs: seq<Report>, r: nat, x: Report, id: RuleID, d: Direction)
    requires r < |rs|
    ensures InReports(rs[r := x], id, d) + InReport(rs[r], id, d) == InReports(rs, id, d) + InReport(x, id, d)
  {
    if r == |rs| - 1 {
      assert rs[r := x][..|rs| - 1] == rs[..|rs| - 1];
    } else {
      ReportUpdated(rs[..|rs| - 1], r, x, id, d);
      assert rs[r := x][..|rs| - 1] == rs[..|rs| - 1][r := x];
    }
  }

  lemma ReportBegun(rs: seq<Report>, id: RuleID, d: Direction)
    ensures InReports(rs + [Report(Collecting, {}, Neither, [])], id, d) == InReports(rs, id, d)
  {
    assert (rs + [Report(Collecting, {}, Neither, [])])[..|rs|] == rs;
  }

  /** Every byte counted is in exactly one place. */
  predicate Balanced(b: Books, id: RuleID, d: Direction) {
    Total(b.counted, id, d) ==
      InCounter(b, id, d) + InReports(b.reports, id, d) + Total(b.pending, id, d)
      + Total(b.delivered, id, d) + Total(b.dropped, id, d) + Total(b.lost, id, d)
  }

  lemma BalancedCounters(b: Books, s: Step, id: RuleID, d: Direction)
    requires Balanced(b, id, d) && Enabled(b, s)
    requires s.AddForwarder? || s.RemoveForwarder? || s.Count? || s.Begin?
    ensures Balanced(Next(b, s), id, d)
  {
    match s
    case AddForwarder(k) =>
    case RemoveForwarder(k) => TotalAppended(b.lost, Item(k, b.counters[k].up, b.counters[k].down), id, d);
    case Count(k, up, down) => TotalAppended(b.counted, Item(k, up, down), id, d);
    case Begin => ReportBegun(b.reports, id, d);
  }

  lemma BalancedSwaps(b: Books, s: Step, id: RuleID, d: Direction)
    requires Balanced(b, id, d) && Enabled(b, s)
    requires s.SwapUpload? || s.SwapDownload?
    ensures Balanced(Next(b, s), id, d)
  {
    var r := s.r;
    var x := b.reports[r];
    ReportUpdated(b.reports, r, Next(b, s).reports[r], id, d);
    if s.SwapDownload? {
      TotalAppended(x.items, Item(x.half.id, x.half.up, b.counters[x.half.id].down), id, d);
    }
  }

  lemma BalancedPending(b: Books, s: Step, id: RuleID, d: Direction)
    requires (s.TakePending? || s.Fail?) && Balanced(b, id, d) && Enabled(b, s) && b.reports[s.r].half.Neither?
    ensures Balanced(Next(b, s), id, d)
  {
    var r := s.r;
    var all := Merge(b.pending, b.reports[r].items);
    ReportUpdated(b.reports, r, Next(b, s).reports[r], id, d);
    MergeTotal(b.pending, b.reports[r].items, id, d);
    if s.Fail? {
      var k := Overflow(all);
      assert all[..k] + all[k..] == all;
      TotalConcat(all[..k], all[k..], id, d);
      TotalConcat(b.dropped, all[..k], id, d);
    }
  }

  lemma BalancedEnds(b: Books, s: Step, id: RuleID, d: Direction)
    requires (s.Release? || s.Deliver? || s.FailFinally?) && Balanced(b, id, d) && Enabled(b, s) && b.reports[s.r].half.Neither?
    ensures Balanced(Next(b, s), id, d)
  {
    var r := s.r;
    ReportUpdated(b.reports, r, Next(b, s).reports[r], id, d);
    TotalConcat(b.delivered, b.reports[r].items, id, d);
    TotalConcat(b.lost, b.reports[r].items, id, d);
  }

  // ---- Shape of the lists ----

  predicate ReportOk(x: Report, known: set<RuleID>) {
    && UniqueIDs(x.items) && IDs(x.items) <= known
    && (x.half.Swapped? ==> x.phase.Collecting? && x.half.id !in x.visited && x.half.id in known)
    && (x.phase.Collecting? ==> IDs(x.items) <= x.visited)
  }

  /** known: every rule that ever had a forwarder. */
  predicate Ordered(b: Books, known: set<RuleID>) {
    && UniqueIDs(b.pending) && |b.pending| <= MAX_PENDING && IDs(b.pending) <= known
    && b.counters.Keys <= known
    && forall r :: 0 <= r < |b.reports| ==> ReportOk(b.reports[r], known)
  }

  function Known(known: set<RuleID>, s: Step): set<RuleID> {
    if s.AddForwarder? then known + {s.id} else known
  }

  lemma CollectOk(x: Report, down: nat, known: set<RuleID>)
    requires ReportOk(x, known) && x.half.Swapped?
    ensures ReportOk(Collect(x, down), known)
  {
    var item := Item(x.half.id, x.half.up, down);
    assert IDs(x.items + [item]) <= IDs(x.items) + {item.ruleID};
    forall i | 0 <= i < |x.items|
      ensures x.items[i].ruleID != item.ruleID
    {
      assert x.items[i].ruleID in IDs(x.items);
    }
  }

  lemma SuffixOk(items: seq<Item>, k: nat)
    requires UniqueIDs(items) && k <= |items|
    ensures UniqueIDs(items[k..]) && IDs(items[k..]) <= IDs(items)
  {
    forall id | id in IDs(items[k..])
      ensures id in IDs(items)
    {
      var i :| 0 <= i < |items[k..]| && items[k..][i].ruleID == id;
      assert items[k + i].ruleID == id;
    }
  }

  lemma OrderedStep(b: Books, s: Step, known: set<RuleID>)
    requires Ordered(b, known) && Enabled(b, s)
    ensures Ordered(Next(b, s), Known(known, s))
  {
    match s
    case SwapDownload(r) => CollectOk(b.reports[r], b.counters[b.reports[r].half.id].down, known);
    case TakePending(r) => MergeUnique(b.pending, b.reports[r].items);
    case Fail(r) =>
      var all := Merge(b.pending, b.reports[r].items);
      MergeUnique(b.pending, b.reports[r].items);
      SuffixOk(all, Overflow(all));
    case _ =>
  }

  // ---- Runs ----

  predicate AllEnabled(b: Books, run: seq<Step>)
    decreases |run|
  {
    run == [] || (Enabled(b, run[0]) && AllEnabled(Next(b, run[0]), run[1..]))
  }

  function After(b: Books, run: seq<Step>): Books
    requires AllEnabled(b, run)
    decreases |run|
  {
    if run == [] then b else After(Next(b, run[0]), run[1..])
  }

  function KnownAfter(known: set<RuleID>, run: seq<Step>): set<RuleID>
    decreases |run|
  {
    if run == [] then known else KnownAfter(Known(known, run[0]), run[1..])
  }

  lemma BalancedStep(b: Books, s: Step, known: set<RuleID>, id: RuleID, d: Direction)
    requires Ordered(b, known) && Balanced(b, id, d) && Enabled(b, s)
    ensures Balanced(Next(b, s), id, d)
  {
    match s
    case AddForwarder(_) => BalancedCounters(b, s, id, d);
    case RemoveForwarder(_) => BalancedCounters(b, s, id, d);
    case Count(_, _, _) => BalancedCounters(b, s, id, d);
    case Begin => BalancedCounters(b, s, id, d);
    case SwapUpload(_, _) => BalancedSwaps(b, s, id, d);
    case SwapDownload(_) => BalancedSwaps(b, s, id, d);
    case TakePending(_) => BalancedPending(b, s, id, d);
    case Fail(_) => BalancedPending(b, s, id, d);
    case _ => BalancedEnds(b, s, id, d);
  }

  /**
   * Conservation: over every run, for every rule and direction, the bytes
   * counted are those still in the counter, in a report under way, pending,
   * delivered, dropped over the limit, or gone with a removed forwarder or the
   * final report. Ids stay unique, so nothing is reported twice.
   */
  lemma {:induction false} TrafficIsConserved(b: Books, run: seq<Step>, known: set<RuleID>, id: RuleID, d: Direction)
    requires Ordered(b, known) && Balanced(b, id, d) && AllEnabled(b, run)
    ensures Ordered(After(b, run), KnownAfter(known, run)) && Balanced(After(b, run), id, d)
    decreases |run|
  {
    if run != [] {
      OrderedStep(b, run[0], known);
      BalancedStep(b, run[0], known, id, d);
      TrafficIsConserved(Next(b, run[0]), run[1..], Known(known, run[0]), id, d);
    }
  }

  lemma StartsBalanced(id: RuleID, d: Direction)
    ensures Ordered(EMPTY, {}) && Balanced(EMPTY, id, d)
  {
  }

  lemma {:induction false} KnownGrows(known: set<RuleID>, run: seq<Step>)
    ensures known <= KnownAfter(known, run)
    decreases |run|
  {
    if run != [] {
      KnownGrows(Known(known, run[0]), run[1..]);
    }
  }

  /** With at most 1000 rules over the whole run, a failed report never drops anything. */
  lemma {:induction false} NothingDropped(b: Books, run: seq<Step>, known: set<RuleID>)
    requires Ordered(b, known) && AllEnabled(b, run) && |KnownAfter(known, run)| <= MAX_PENDING
    ensures After(b, run).dropped == b.dropped
    decreases |run|
  {
    if run != [] {
      OrderedStep(b, run[0], known);
      KnownGrows(known, run);
      if run[0].Fail? {
        var all := Merge(b.pending, b.reports[run[0].r].items);
        MergeUnique(b.pending, b.reports[run[0].r].items);
        UniqueCount(all, KnownAfter(known, run));
      }
      NothingDropped(Next(b, run[0]), run[1..], Known(known, run[0]));
    }
  }

  lemma {:induction false} FinishedReportsHoldNothing(rs: seq<Report>, id: RuleID, d: Direction)
    requires forall r :: 0 <= r < |rs| ==> rs[r] == FINISHED
    ensures InReports(rs, id, d) == 0
  {
    if rs != [] {
      FinishedReportsHoldNothing(rs[..|rs| - 1], id, d);
    }
  }

  /**
   * After any failures in between: once a report has gone through with every
   * counter read and no other report under way, each byte that was counted has
   * been delivered, exactly once, unless it was dropped or given up.
   */
  lemma EverythingDelivered(run: seq<Step>, id: RuleID, d: Direction)
    requires AllEnabled(EMPTY, run)
    requires var b := After(EMPTY, run);
      && (forall r :: 0 <= r < |b.reports| ==> b.reports[r] == FINISHED)
      && b.pending == [] && InCounter(b, id, d) == 0
    ensures var b := After(EMPTY, run);
      Total(b.delivered, id, d) == Total(b.counted, id, d) - Total(b.dropped, id, d) - Total(b.lost, id, d)
  {
    StartsBalanced(id, d);
    TrafficIsConserved(EMPTY, run, {}, id, d);
    FinishedReportsHoldNothing(After(EMPTY, run).reports, id, d);
  }
}
