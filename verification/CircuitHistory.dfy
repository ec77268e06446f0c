/** The circuit breaker read off its history: what it counts, how long it waits, and when it blocks. */
module CircuitHistory {
  import opened CircuitBreaking

  lemma {:induction false} HappenLast(r: Run, es: seq<Event>)
    requires es != []
    ensures HappenAll(r, es) == Happen(HappenAll(r, es[..|es| - 1]), es[|es| - 1])
    decreases |es|
  {
    if |es| == 1 {
      assert es[1..] == [] && es[..0] == [];
    } else {
      assert es[1..][..|es| - 2] == es[..|es| - 1][1..];
      HappenLast(Happen(r, es[0]), es[1..]);
    }
  }

  // ---- What is counted ----

  /** Failures since the last success, whoever recorded them. */
  function FailsSinceFine(es: seq<Event>): (n: nat)
    ensures n <= |es|
  {
    if es == [] || es[|es| - 1].Fine? then 0
    else FailsSinceFine(es[..|es| - 1]) + if es[|es| - 1].Fail? then 1 else 0
  }

  /** The time of the last failure; the program starts from zero. */
  function LastFail(es: seq<Event>): int {
    if es == [] then 0
    else if es[|es| - 1].Fail? then es[|es| - 1].now
    else LastFail(es[..|es| - 1])
  }

  /** A success counts when it comes in closed or half-open; one that is late for an open or blocked breaker does not. */
  predicate Counts(r: Run, e: Event) {
    e.Fine? && (r.b.state.Closed? || r.b.state.HalfOpen?)
  }

  /** Failures since the last success that counted. */
  function Counted(clock: int, es: seq<Event>): (n: nat)
    ensures n <= |es|
  {
    if es == [] then 0
    else
      var init, last := es[..|es| - 1], es[|es| - 1];
      if Counts(HappenAll(Start(clock), init), last) then 0
      else Counted(clock, init) + if last.Fail? then 1 else 0
  }

  lemma {:induction false} CountsAreHistory(clock: int, es: seq<Event>)
    requires |es| <= MAX_INT32
    ensures var b := HappenAll(Start(clock), es).b;
      && b.failures == Counted(clock, es) && b.lastFailure == LastFail(es)
      && (b.state.Closed? ==> b.failures == FailsSinceFine(es))
  {
    if es != [] {
      var init := es[..|es| - 1];
      CountsAreHistory(clock, init);
      HappenLast(Start(clock), es);
      NoWrap(HappenAll(Start(clock), init).b.failures);
    }
  }

  /**
   * Over any run, the state follows from the failures since the last success that
   * counted: closed with fewer than three, which are then all failures since any
   * success, open with three to nine, blocked from ten on, half-open with three or
   * more. The time that waits are measured from is that of the last failure, in
   * whatever state it was recorded.
   */
  lemma StateByFailures(clock: int, es: seq<Event>)
    requires AllInTime(Start(clock), es) && |es| <= MAX_INT32
    ensures var b, n := HappenAll(Start(clock), es).b, Counted(clock, es);
      && b.lastFailure == LastFail(es)
      && match b.state
         case Closed => n == FailsSinceFine(es) < 3
         case Open => 3 <= n < 10
         case HalfOpen => 3 <= n
         case Blocked => 10 <= n
  {
    CountsAreHistory(clock, es);
    StartOk(clock);
    RunsStayOk(Start(clock), es);
  }

  predicate NoSuccess(es: seq<Event>) {
    forall i :: 0 <= i < |es| ==> !es[i].Fine?
  }

  function Fails(es: seq<Event>): nat {
    if es == [] then 0 else Fails(es[..|es| - 1]) + if es[|es| - 1].Fail? then 1 else 0
  }

  /** A closed breaker with a clean count, and what follows without a success. */
  lemma {:induction false} FailsFromClean(r: Run, es: seq<Event>)
    requires r.b.state.Closed? && r.b.failures == 0 && NoSuccess(es) && Fails(es) < FAILURE_THRESHOLD
    ensures var b := HappenAll(r, es).b; b.state.Closed? && b.failures == Fails(es) && b.backoff == r.b.backoff
  {
    if es != [] {
      FailsFromClean(r, es[..|es| - 1]);
      HappenLast(r, es);
      NoWrap(Fails(es[..|es| - 1]));
    }
  }

  /**
   * A success wipes the slate clean: from any closed breaker, a success and then
   * fewer than three failures, with any calls and checks in between, leave it
   * closed and admitting everybody; the third failure opens it, and for 100
   * milliseconds nobody is admitted.
   */
  lemma SuccessForgets(r: Run, es: seq<Event>, third: int, now: int)
    requires r.b.state.Closed? && NoSuccess(es) && Fails(es) < FAILURE_THRESHOLD
    ensures var s := HappenAll(Happen(r, Fine), es);
      && s.b.state.Closed? && Allow(s.b, now) == (s.b, true)
      && (Fails(es) == FAILURE_THRESHOLD - 1 ==>
            var t := Happen(s, Fail(third)); t.b.state.Open? && (Allow(t.b, now).1 <==> now - third >= MIN_BACKOFF))
  {
    FailsFromClean(Happen(r, Fine), es);
    NoWrap(Fails(es));
  }

  // ---- Who is admitted ----

  /** Admission, by the state and the last failure of the run. */
  lemma AdmittedExactly(clock: int, es: seq<Event>, now: int)
    requires AllInTime(Start(clock), es) && |es| <= MAX_INT32
    ensures var r := HappenAll(Start(clock), es);
      Allow(r.b, now).1 <==>
        match r.b.state
        case Closed => true
        case Open => now - LastFail(es) >= MIN_BACKOFF * Power(r.doublings)
        case HalfOpen => false
        case Blocked => now - LastFail(es) >= MAX_BACKOFF
  {
    CountsAreHistory(clock, es);
    StartOk(clock);
    RunsStayOk(Start(clock), es);
  }

  /** Only a probe that succeeds closes a breaker again; a late success of an older call does not. */
  lemma ClosesExactly(r: Run, e: Event)
    requires !r.b.state.Closed?
    ensures Happen(r, e).b.state.Closed? <==> r.b.state.HalfOpen? && e.Fine?
  {
  }

  // ---- A target that stays down ----

  /** A probe and its failure. */
  datatype Attempt = Attempt(ask: int, fail: int)

  function Attempts(tries: seq<Attempt>): seq<Event> {
    if tries == [] then [] else Attempts(tries[..|tries| - 1]) + [Ask(tries[|tries| - 1].ask), Fail(tries[|tries| - 1].fail)]
  }

  /** The failure that the next wait counts from. */
  function Since(openAt: int, tries: seq<Attempt>): int {
    if tries == [] then openAt else tries[|tries| - 1].fail
  }

  /** Each probe comes when the wait of the breaker is over: 100ms after opening, then 200ms, and so on. */
  predicate Patient(openAt: int, tries: seq<Attempt>) {
    tries != [] ==>
      var init, last := tries[..|tries| - 1], tries[|tries| - 1];
      Patient(openAt, init) && last.ask - Since(openAt, init) >= MIN_BACKOFF * Power(|init|)
  }

  lemma OneAttempt(b: Breaker, d: nat, a: Attempt)
    requires d <= 6 && b == Breaker(Open, FAILURE_THRESHOLD + d, b.lastFailure, 0, MIN_BACKOFF * Power(d))
    requires a.ask - b.lastFailure >= MIN_BACKOFF * Power(d)
    ensures Allow(b, a.ask).1
    ensures Failure(Allow(b, a.ask).0, a.fail)
         == Breaker(if d < 6 then Open else Blocked, FAILURE_THRESHOLD + d + 1, a.fail, 0,
                    MIN_BACKOFF * Power(if d < 6 then d + 1 else d))
  {
    NoWrap(b.failures);
    BackoffBound(b, d);
  }

  lemma ThreeFailures(r: Run, f0: int, f1: int, f2: int)
    requires r.b.state.Closed? && r.b.failures == 0 && r.b.halfOpenCount == 0 && r.b.backoff == MIN_BACKOFF
    ensures Happen(Happen(Happen(r, Fail(f0)), Fail(f1)), Fail(f2)).b == Breaker(Open, 3, f2, 0, MIN_BACKOFF)
  {
    NoWrap(0);
    NoWrap(1);
    NoWrap(2);
  }

  lemma {:induction false} HappenTwo(r: Run, es: seq<Event>, e: Event, f: Event)
    ensures HappenAll(r, es + [e, f]) == Happen(Happen(HappenAll(r, es), e), f)
  {
    assert (es + [e, f])[..|es| + 1] == es + [e] && (es + [e])[..|es|] == es;
    HappenLast(r, es + [e, f]);
    HappenLast(r, es + [e]);
  }

  /**
   * A target that stays down, probed as soon as or later than it may be: after
   * the third failure the n-th further one makes the next wait 100ms * 2^n, up to
   * the sixth; the seventh, the tenth in all, blocks it, and then the wait is 30
   * seconds.
   */
  lemma {:induction false} StaysDown(r: Run, openAt: int, tries: seq<Attempt>, now: int)
    requires r.b == Breaker(Open, FAILURE_THRESHOLD, openAt, 0, MIN_BACKOFF) && Patient(openAt, tries) && |tries| <= 7
    ensures var b := HappenAll(r, Attempts(tries)).b;
      var last := Since(openAt, tries);
      && b == Breaker(if |tries| < 7 then Open else Blocked, FAILURE_THRESHOLD + |tries|, last, 0, b.backoff)
      && (|tries| < 7 ==> b.backoff == MIN_BACKOFF * Power(|tries|))
      && (Allow(b, now).1 <==> now - last >= if |tries| < 7 then MIN_BACKOFF * Power(|tries|) else MAX_BACKOFF)
  {
    if tries == [] {
      assert Power(0) == 1;
    } else {
      var n := |tries| - 1;
      var init := tries[..n];
      StaysDown(r, openAt, init, now);
      OneAttempt(HappenAll(r, Attempts(init)).b, n, tries[n]);
      HappenTwo(r, Attempts(init), Ask(tries[n].ask), Fail(tries[n].fail));
    }
  }

  /** The same from the start: three failures, and then the attempts. */
  lemma DownFromTheStart(clock: int, f0: int, f1: int, f2: int, tries: seq<Attempt>, now: int)
    requires Patient(f2, tries) && |tries| <= 7
    ensures var b := HappenAll(Start(clock), [Fail(f0), Fail(f1), Fail(f2)] + Attempts(tries)).b;
      var last := Since(f2, tries);
      && b.failures == 3 + |tries| && (b.state.Blocked? <==> |tries| == 7)
      && (Allow(b, now).1 <==> now - last >= if |tries| < 7 then 100 * MILLISECOND * Power(|tries|) else 30_000 * MILLISECOND)
  {
    var es := Attempts(tries);
    var r1 := Happen(Start(clock), Fail(f0));
    var r2 := Happen(r1, Fail(f1));
    ThreeFailures(Start(clock), f0, f1, f2);
    StaysDown(Happen(r2, Fail(f2)), f2, tries, now);
    Before(r2, Fail(f2), es);
    Before(r1, Fail(f1), [Fail(f2)] + es);
    Before(Start(clock), Fail(f0), [Fail(f1)] + ([Fail(f2)] + es));
    assert [Fail(f0), Fail(f1), Fail(f2)] + es == [Fail(f0)] + ([Fail(f1)] + ([Fail(f2)] + es));
  }
}
