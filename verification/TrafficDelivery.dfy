/** A report that goes through delivers everything: the counters of every forwarder and all that earlier reports left. */
module TrafficDelivery {
  import opened Traffic
  import opened TrafficRuns

  const ZERO := Counts(0, 0)

  lemma {:induction false} AfterBoth(b: Books, run: seq<Step>, more: seq<Step>)
    requires AllEnabled(b, run) && AllEnabled(After(b, run), more)
    ensures AllEnabled(b, run + more) && After(b, run + more) == After(After(b, run), more)
    decreases |run|
  {
    if run == [] {
      assert run + more == more;
    } else {
      assert (run + more)[1..] == run[1..] + more;
      AfterBoth(Next(b, run[0]), run[1..], more);
    }
  }

  lemma First(b: Books, s: Step, rest: seq<Step>) returns (run: seq<Step>)
    requires Enabled(b, s) && AllEnabled(Next(b, s), rest)
    ensures AllEnabled(b, run) && After(b, run) == After(Next(b, s), rest)
  {
    run := [s] + rest;
    assert run[1..] == rest;
  }

  /** Report r is reading the counters, and those it has read stand at zero. */
  predicate Reading(b: Books, r: nat) {
    && InPhase(b, r, Collecting) && b.reports[r].half.Neither?
    && forall id :: id in b.counters && id in b.reports[r].visited ==> b.counters[id] == ZERO
  }

  /** Only report r and the counters have changed. */
  predicate OnlyCounters(b: Books, t: Books, r: nat) {
    && r < |b.reports| == |t.reports| && t.counters.Keys == b.counters.Keys
    && t == b.(counters := t.counters, reports := b.reports[r := t.reports[r]])
  }

  lemma ReadOne(b: Books, r: nat, id: RuleID) returns (t: Books)
    requires Reading(b, r) && id in b.counters && id !in b.reports[r].visited
    ensures Enabled(b, SwapUpload(r, id)) && Enabled(Next(b, SwapUpload(r, id)), SwapDownload(r))
    ensures t == Next(Next(b, SwapUpload(r, id)), SwapDownload(r))
    ensures Reading(t, r) && OnlyCounters(b, t, r) && t.reports[r].visited == b.reports[r].visited + {id}
  {
    t := Next(Next(b, SwapUpload(r, id)), SwapDownload(r));
  }

  /** The rest of the counters, in whatever order. */
  lemma {:induction false} ReadAll(b: Books, r: nat) returns (run: seq<Step>)
    requires Reading(b, r)
    ensures AllEnabled(b, run)
    ensures var t := After(b, run);
      && Reading(t, r) && OnlyCounters(b, t, r) && t.counters.Keys <= t.reports[r].visited
    decreases |b.counters.Keys - b.reports[r].visited|
  {
    var rest := b.counters.Keys - b.reports[r].visited;
    if rest == {} {
      run := [];
      assert b.reports[r := b.reports[r]] == b.reports;
      forall id | id in b.counters.Keys ensures id in b.reports[r].visited { assert id !in rest; }
    } else {
      var id :| id in rest;
      var t := ReadOne(b, r, id);
      assert t.counters.Keys - t.reports[r].visited == rest - {id};
      run := ReadAll(t, r);
      run := First(Next(b, SwapUpload(r, id)), SwapDownload(r), run);
      run := First(b, SwapUpload(r, id), run);
    }
  }

  /** From the last counter to the answer of the server. */
  lemma SendOff(b: Books, r: nat) returns (run: seq<Step>)
    requires Reading(b, r) && b.counters.Keys <= b.reports[r].visited
    ensures AllEnabled(b, run)
    ensures var t := After(b, run);
      && t.pending == [] && t.counters == b.counters && t.reports == b.reports[r := FINISHED]
      && t.counted == b.counted && t.dropped == b.dropped && t.lost == b.lost
  {
    var released := Next(b, Release(r));
    var taken := Next(released, TakePending(r));
    if Merge(released.pending, released.reports[r].items) == [] {
      run := [];
    } else {
      run := First(taken, Deliver(r), []);
    }
    run := First(released, TakePending(r), run);
    run := First(b, Release(r), run);
  }

  predicate AllFinished(b: Books) {
    forall r :: 0 <= r < |b.reports| ==> b.reports[r] == FINISHED
  }

  lemma ReportAndDeliver(b: Books) returns (run: seq<Step>)
    requires AllFinished(b)
    ensures AllEnabled(b, run)
    ensures var t := After(b, run);
      && AllFinished(t) && t.pending == [] && t.counters.Keys == b.counters.Keys
      && (forall id :: id in t.counters ==> t.counters[id] == ZERO)
      && t.counted == b.counted && t.dropped == b.dropped && t.lost == b.lost
  {
    var r := |b.reports|;
    var begun := Next(b, Begin);
    var reading := ReadAll(begun, r);
    var sending := SendOff(After(begun, reading), r);
    AfterBoth(begun, reading, sending);
    run := First(b, Begin, reading + sending);
  }

  /**
   * After any run, with any reports failed before: one more report that goes
   * through leaves no counter and nothing pending, drops and loses nothing, and
   * then every byte ever counted has been delivered exactly once, but for those
   * dropped or given up before it.
   */
  lemma OneGoodReport(run: seq<Step>) returns (more: seq<Step>)
    requires AllEnabled(EMPTY, run) && AllFinished(After(EMPTY, run))
    ensures AllEnabled(EMPTY, run + more)
    ensures var b, t := After(EMPTY, run), After(EMPTY, run + more);
      && t.pending == [] && AllFinished(t) && (forall id :: id in t.counters ==> t.counters[id] == ZERO)
      && t.counted == b.counted && t.dropped == b.dropped && t.lost == b.lost
      && forall id, d :: Total(t.delivered, id, d) == Total(b.counted, id, d) - Total(b.dropped, id, d) - Total(b.lost, id, d)
  {
    more := ReportAndDeliver(After(EMPTY, run));
    AfterBoth(EMPTY, run, more);
    var b, t := After(EMPTY, run), After(EMPTY, run + more);
    forall id, d
      ensures Total(t.delivered, id, d) == Total(b.counted, id, d) - Total(b.dropped, id, d) - Total(b.lost, id, d)
    {
      EverythingDelivered(run + more, id, d);
    }
  }

  /** A failed report drops only what is over the limit of 1000 items, the oldest first, and keeps all the others. */
  lemma DropsOnlyOverTheLimit(b: Books, r: nat)
    requires Enabled(b, Fail(r))
    ensures var all := Merge(b.pending, b.reports[r].items);
      var t := Next(b, Fail(r));
      && |t.pending| == (if |all| <= 1000 then |all| else 1000) && t.pending == all[|all| - |t.pending|..]
      && t.dropped == b.dropped + all[..|all| - |t.pending|]
  {
  }
}
