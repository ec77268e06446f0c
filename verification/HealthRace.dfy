/**
 * RecordFailure of several goroutines on one healthy tunnel, atomic by atomic:
 * each adds to the failure count, and then may swap the healthy flag.
 */
module HealthRace {
  /** A goroutine between its Add, which gave it n, and its CompareAndSwap. */
  datatype Caller = Ready | Counted(n: nat) | Done

  datatype State = State(failures: nat, healthy: bool, callers: seq<Caller>, reports: seq<nat>)

  datatype Step = Add(i: nat) | Swap(i: nat)

  function Init(callers: nat): State {
    State(0, true, seq(callers, _ => Ready), [])
  }

  predicate Enabled(s: State, step: Step) {
    step.i < |s.callers| && if step.Add? then s.callers[step.i].Ready? else s.callers[step.i].Counted?
  }

  /** The threshold is t. */
  function Next(t: nat, s: State, step: Step): State
    requires Enabled(s, step)
  {
    match step
    case Add(i) => s.(failures := s.failures + 1, callers := s.callers[i := Counted(s.failures + 1)])
    case Swap(i) =>
      var n := s.callers[i].n;
      var done := s.(callers := s.callers[i := Done]);
      if n >= t && s.healthy then done.(healthy := false, reports := s.reports + [n]) else done
  }

  predicate Valid(t: nat, s: State, run: seq<Step>)
    decreases |run|
  {
    run == [] || (Enabled(s, run[0]) && Valid(t, Next(t, s, run[0]), run[1..]))
  }

  function After(t: nat, s: State, run: seq<Step>): State
    requires Valid(t, s, run)
    decreases |run|
  {
    if run == [] then s else After(t, Next(t, s, run[0]), run[1..])
  }

  /** Nobody who has filled the threshold is still on the way to the swap. */
  predicate NobodyOver(t: nat, s: State) {
    forall i :: 0 <= i < |s.callers| && s.callers[i].Counted? ==> s.callers[i].n < t
  }

  /** A failure is counted on a healthy tunnel only when no earlier one is about to take it down. */
  predicate InTurn(t: nat, s: State, step: Step) {
    step.Add? && s.healthy ==> NobodyOver(t, s)
  }

  predicate AllInTurn(t: nat, s: State, run: seq<Step>)
    requires Valid(t, s, run)
    decreases |run|
  {
    run == [] || (InTurn(t, s, run[0]) && AllInTurn(t, Next(t, s, run[0]), run[1..]))
  }

  predicate Held(s: State, v: nat) {
    exists i :: 0 <= i < |s.callers| && s.callers[i] == Counted(v)
  }

  /** While the tunnel is healthy, whoever counted the threshold or more has yet to swap. */
  predicate Pending(t: nat, s: State) {
    s.healthy ==> (s.reports == [] && forall v :: t <= v <= s.failures ==> Held(s, v))
  }

  predicate Bounded(t: nat, s: State) {
    && (forall i :: 0 <= i < |s.callers| && s.callers[i].Counted? ==> s.callers[i].n <= s.failures)
    && (!s.healthy ==> |s.reports| == 1 && s.reports[0] >= t)
  }

  lemma StaysHeld(t: nat, s: State, step: Step, v: nat)
    requires Enabled(s, step) && Next(t, s, step).healthy && t <= v && Held(s, v)
    ensures Held(Next(t, s, step), v)
  {
    var i :| 0 <= i < |s.callers| && s.callers[i] == Counted(v);
    assert i != step.i;
    assert Next(t, s, step).callers[i] == Counted(v);
  }

  lemma StepPending(t: nat, s: State, step: Step)
    requires Pending(t, s) && Bounded(t, s) && Enabled(s, step)
    ensures Pending(t, Next(t, s, step)) && Bounded(t, Next(t, s, step))
  {
    var r := Next(t, s, step);
    if r.healthy {
      forall v | t <= v <= r.failures
        ensures Held(r, v)
      {
        if v <= s.failures {
          StaysHeld(t, s, step, v);
        } else {
          assert r.callers[step.i] == Counted(v);
        }
      }
    }
  }

  lemma SomebodyOver(t: nat, s: State)
    requires Pending(t, s) && s.healthy && s.failures >= t
    ensures !NobodyOver(t, s)
  {
    assert Held(s, t);
  }

  /** In turn, the count never passes the threshold before the report is out. */
  predicate Exact(t: nat, s: State) {
    (s.healthy ==> s.failures <= t) && (!s.healthy ==> s.reports == [t])
  }

  lemma StepExact(t: nat, s: State, step: Step)
    requires t >= 1 && Pending(t, s) && Bounded(t, s) && Exact(t, s) && Enabled(s, step) && InTurn(t, s, step)
    ensures Exact(t, Next(t, s, step))
  {
    if s.healthy && s.failures >= t {
      SomebodyOver(t, s);
    }
  }

  lemma {:induction false} RunExact(t: nat, s: State, run: seq<Step>)
    requires t >= 1 && Pending(t, s) && Bounded(t, s) && Exact(t, s) && Valid(t, s, run) && AllInTurn(t, s, run)
    ensures Exact(t, After(t, s, run))
    decreases |run|
  {
    if run != [] {
      StepPending(t, s, run[0]);
      StepExact(t, s, run[0]);
      RunExact(t, Next(t, s, run[0]), run[1..]);
    }
  }

  lemma {:induction false} RunPending(t: nat, s: State, run: seq<Step>)
    requires Pending(t, s) && Bounded(t, s) && Valid(t, s, run)
    ensures Pending(t, After(t, s, run)) && Bounded(t, After(t, s, run))
    decreases |run|
  {
    if run != [] {
      StepPending(t, s, run[0]);
      RunPending(t, Next(t, s, run[0]), run[1..]);
    }
  }

  /**
   * However the goroutines interleave, there is at most one report and it carries
   * at least the threshold; it carries exactly the threshold where failures are
   * counted in turn.
   */
  lemma ReportCount(t: nat, callers: nat, run: seq<Step>)
    requires t >= 1 && Valid(t, Init(callers), run)
    ensures var s := After(t, Init(callers), run);
      && |s.reports| <= 1 && (s.reports != [] ==> s.reports[0] >= t)
      && (AllInTurn(t, Init(callers), run) && s.reports != [] ==> s.reports == [t])
  {
    RunPending(t, Init(callers), run);
    if AllInTurn(t, Init(callers), run) {
      RunExact(t, Init(callers), run);
    }
  }

  /** Out of turn once, and the goroutine that came later may report more than the threshold. */
  lemma OutOfTurnOvercounts(t: nat, callers: nat, run: seq<Step>, i: nat)
    requires t >= 1 && Valid(t, Init(callers), run)
    requires var s := After(t, Init(callers), run); Enabled(s, Add(i)) && !InTurn(t, s, Add(i))
    ensures var s := Next(t, After(t, Init(callers), run), Add(i));
      Enabled(s, Swap(i)) && Next(t, s, Swap(i)).reports == [s.failures] && s.failures > t
  {
    RunPending(t, Init(callers), run);
  }

  /** Threshold 2: two goroutines count 2 and 3, and the one that counted 3 swaps first. */
  lemma OvercountExample() returns (run: seq<Step>)
    ensures Valid(2, Init(3), run) && After(2, Init(3), run).reports == [3]
  {
    run := [Add(0), Add(1), Add(2), Swap(2)];
    var s1 := Next(2, Init(3), Add(0));
    var s2 := Next(2, s1, Add(1));
    var s3 := Next(2, s2, Add(2));
    var s4 := Next(2, s3, Swap(2));
    assert run[1..] == [Add(1), Add(2), Swap(2)] && run[1..][1..] == [Add(2), Swap(2)];
    assert run[1..][1..][1..] == [Swap(2)] && run[1..][1..][1..][1..] == [];
    assert Valid(2, s4, []) && After(2, s4, []) == s4;
    assert Valid(2, s3, [Swap(2)]) && After(2, s3, [Swap(2)]) == s4;
    assert Valid(2, s2, [Add(2), Swap(2)]) && After(2, s2, [Add(2), Swap(2)]) == s4;
    assert Valid(2, s1, [Add(1), Add(2), Swap(2)]) && After(2, s1, [Add(1), Add(2), Swap(2)]) == s4;
  }
}
