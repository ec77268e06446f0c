/**
 * The circuit breaker with exponential back-off. Every method is one atomic
 * step; now is the reading of a clock that never goes back. Late results are
 * allowed: any caller may record an outcome in any state.
 */
module CircuitBreaking {
  const FAILURE_THRESHOLD := 3
  const BLOCKED_THRESHOLD := 10
  const HALF_OPEN_MAX := 1
  const MILLISECOND: int := 1_000_000
  const MIN_BACKOFF: int := 100 * MILLISECOND
  const MAX_BACKOFF: int := 30_000 * MILLISECOND
  const MAX_INT32: int := 0x7fff_ffff

  datatype State = Closed | Open | HalfOpen | Blocked

  datatype Breaker = Breaker(state: State, failures: int, lastFailure: int, halfOpenCount: int, backoff: int)

  const INITIAL := Breaker(Closed, 0, 0, 0, MIN_BACKOFF)

  /** Adding to an atomic.Int32 wraps around. */
  function Int32(n: int): int {
    (n + MAX_INT32 + 1) % (2 * (MAX_INT32 + 1)) - MAX_INT32 - 1
  }

  // ---- The methods, on values ----

  function AllowHalfOpen(b: Breaker): (Breaker, bool) {
    if b.halfOpenCount + 1 > HALF_OPEN_MAX then (b, false)
    else (b.(halfOpenCount := b.halfOpenCount + 1), true)
  }

  function Allow(b: Breaker, now: int): (Breaker, bool) {
    match b.state
    case Closed => (b, true)
    case Open =>
      if now - b.lastFailure >= b.backoff then AllowHalfOpen(b.(state := HalfOpen, halfOpenCount := 0)) else (b, false)
    case HalfOpen => AllowHalfOpen(b)
    case Blocked =>
      if now - b.lastFailure >= MAX_BACKOFF then AllowHalfOpen(b.(state := HalfOpen, halfOpenCount := 0)) else (b, false)
  }

  function Success(b: Breaker): Breaker {
    match b.state
    case HalfOpen => Breaker(Closed, 0, b.lastFailure, b.halfOpenCount - 1, MIN_BACKOFF)
    case Closed => b.(failures := 0, backoff := MIN_BACKOFF)
    case _ => b
  }

  function Doubled(backoff: int): int {
    if backoff * 2 > MAX_BACKOFF then MAX_BACKOFF else backoff * 2
  }

  function Failure(b: Breaker, now: int): Breaker {
    var f := Int32(b.failures + 1);
    var c := b.(failures := f, lastFailure := now);
    if f >= BLOCKED_THRESHOLD then
      c.(state := Blocked, halfOpenCount := if b.state.HalfOpen? then b.halfOpenCount - 1 else b.halfOpenCount)
    else if b.state.HalfOpen? then
      c.(state := Open, halfOpenCount := b.halfOpenCount - 1, backoff := Doubled(b.backoff))
    else if f >= FAILURE_THRESHOLD && b.state.Closed? then c.(state := Open)
    else c
  }

  function BackoffDuration(b: Breaker, now: int): int {
    var elapsed := now - b.lastFailure;
    match b.state
    case Closed => 0
    case Blocked => if elapsed >= MAX_BACKOFF then 0 else MAX_BACKOFF - elapsed
    case _ => if elapsed >= b.backoff then 0 else b.backoff - elapsed
  }

  // ---- The object ----

  class CircuitBreaker {
    var state: State
    var failures: int
    var lastFailureTime: int
    var halfOpenCount: int
    var backoffNanos: int

    ghost function Value(): Breaker
      reads this
    {
      Breaker(state, failures, lastFailureTime, halfOpenCount, backoffNanos)
    }

    constructor ()
      ensures Value() == INITIAL
    {
      state, failures, lastFailureTime, halfOpenCount, backoffNanos := Closed, 0, 0, 0, MIN_BACKOFF;
    }

    method AllowProbe() returns (ok: bool)
      modifies this`halfOpenCount
      ensures (Value(), ok) == AllowHalfOpen(old(Value()))
    {
      halfOpenCount := halfOpenCount + 1;
      if halfOpenCount > HALF_OPEN_MAX {
        halfOpenCount := halfOpenCount - 1;
        return false;
      }
      return true;
    }

    method AllowAt(now: int) returns (ok: bool)
      modifies this
      ensures (Value(), ok) == Allow(old(Value()), now)
    {
      match state
      case Closed => return true;
      case Open =>
        if now - lastFailureTime >= backoffNanos {
          state, halfOpenCount := HalfOpen, 0;
          ok := AllowProbe();
          return;
        }
        return false;
      case HalfOpen => ok := AllowProbe();
      case Blocked =>
        if now - lastFailureTime >= MAX_BACKOFF {
          state, halfOpenCount := HalfOpen, 0;
          ok := AllowProbe();
          return;
        }
        return false;
    }

    method RecordSuccess()
      modifies this
      ensures Value() == Success(old(Value()))
    {
      if state == HalfOpen {
        halfOpenCount := halfOpenCount - 1;
        state, failures, backoffNanos := Closed, 0, MIN_BACKOFF;
      } else if state == Closed {
        failures, backoffNanos := 0, MIN_BACKOFF;
      }
    }

    method RecordFailure(now: int)
      modifies this
      ensures Value() == Failure(old(Value()), now)
    {
      lastFailureTime := now;
      var was := state;
      failures := Int32(failures + 1);
      if failures >= BLOCKED_THRESHOLD {
        if was == HalfOpen {
          halfOpenCount := halfOpenCount - 1;
        }
        state := Blocked;
        return;
      }
      if was == HalfOpen {
        halfOpenCount := halfOpenCount - 1;
        state, backoffNanos := Open, Doubled(backoffNanos);
        return;
      }
      if failures >= FAILURE_THRESHOLD && was == Closed {
        state := Open;
      }
    }
  }

  // ---- The invariant ----

  function Power(d: nat): nat {
    if d == 0 then 1 else 2 * Power(d - 1)
  }

  predicate Bands(b: Breaker) {
    match b.state
    case Closed => 0 <= b.failures < FAILURE_THRESHOLD
    case Open => FAILURE_THRESHOLD <= b.failures < BLOCKED_THRESHOLD
    case HalfOpen => FAILURE_THRESHOLD <= b.failures
    case Blocked => BLOCKED_THRESHOLD <= b.failures
  }

  /** d is the number of times the back-off has doubled since the breaker opened. */
  predicate Backed(b: Breaker, d: nat) {
    && b.backoff == MIN_BACKOFF * Power(d)
    && d <= 6
    && (b.state.Closed? ==> d == 0)
    && (!b.state.Closed? ==> d <= b.failures - FAILURE_THRESHOLD)
  }

  predicate BreakerOk(b: Breaker, d: nat) {
    Bands(b) && Backed(b, d) && b.failures <= MAX_INT32 && b.halfOpenCount == if b.state.HalfOpen? then 1 else 0
  }

  lemma PowerBound(d: nat)
    requires d <= 6
    ensures Power(d) <= 64
  {
    assert Power(0) == 1 && Power(1) == 2 && Power(2) == 4 && Power(3) == 8;
    assert Power(4) == 16 && Power(5) == 32 && Power(6) == 64;
  }

  /** The back-off never exceeds 6.4 seconds, so the 30-second clamp is never reached. */
  lemma BackoffBound(b: Breaker, d: nat)
    requires BreakerOk(b, d)
    ensures MIN_BACKOFF <= b.backoff <= 6400 * MILLISECOND
    ensures d < 6 ==> Doubled(b.backoff) == 2 * b.backoff == MIN_BACKOFF * Power(d + 1)
  {
    PowerBound(d);
    if d < 6 {
      PowerBound(d + 1);
    }
    PowerPositive(d);
  }

  lemma {:induction false} PowerPositive(d: nat)
    ensures Power(d) >= 1
  {
    if d > 0 { PowerPositive(d - 1); }
  }

  function DoublingsAfterFailure(b: Breaker, d: nat): nat {
    if b.state.HalfOpen? && Int32(b.failures + 1) < BLOCKED_THRESHOLD then d + 1 else d
  }

  lemma AllowKeeps(b: Breaker, d: nat, now: int)
    requires BreakerOk(b, d)
    ensures BreakerOk(Allow(b, now).0, d)
  {
  }

  lemma SuccessKeeps(b: Breaker, d: nat)
    requires BreakerOk(b, d)
    ensures BreakerOk(Success(b), if b.state.HalfOpen? then 0 else d)
  {
  }

  lemma NoWrap(n: int)
    requires 0 <= n < MAX_INT32
    ensures Int32(n + 1) == n + 1
  {
  }

  lemma FailureKeeps(b: Breaker, d: nat, now: int)
    requires BreakerOk(b, d) && b.failures < MAX_INT32
    ensures BreakerOk(Failure(b, now), DoublingsAfterFailure(b, d))
  {
    NoWrap(b.failures);
    BackoffBound(b, d);
  }

  /**
   * The failure counter has 32 bits. The invariant survives a failure exactly
   * when the counter is not at its maximum.
   */
  lemma FailureKeepsUnlessWrapping(b: Breaker, d: nat, now: int)
    requires BreakerOk(b, d)
    ensures (exists e :: BreakerOk(Failure(b, now), e)) <==> b.failures < MAX_INT32
  {
    if b.failures < MAX_INT32 {
      FailureKeeps(b, d, now);
    } else {
      assert Int32(b.failures + 1) == -MAX_INT32 - 1;
    }
  }

  // ---- Runs ----

  datatype Event =
    | Ask(now: int)     // Allow
    | Fine              // RecordSuccess
    | Fail(now: int)    // RecordFailure
    | Check(now: int)   // BackoffDuration in the accept loop

  /** A breaker, the clock, and the history: when it opened, doublings since, probes admitted, episodes entered. */
  datatype Run = Run(b: Breaker, clock: int, openedAt: int, doublings: nat, probes: nat, episodes: nat, events: nat)

  function Start(clock: int): Run {
    Run(INITIAL, clock, clock, 0, 0, 0, 0)
  }

  predicate InTime(r: Run, e: Event) {
    e.Fine? || r.clock <= e.now
  }

  function Happen(r: Run, e: Event): Run {
    var s := r.(events := r.events + 1);
    match e
    case Ask(now) =>
      var (b, ok) := Allow(r.b, now);
      s.(b := b, clock := now,
         probes := r.probes + (if ok && !r.b.state.Closed? then 1 else 0),
         episodes := r.episodes + (if b.state.HalfOpen? && !r.b.state.HalfOpen? then 1 else 0))
    case Fine => s.(b := Success(r.b), doublings := if r.b.state.HalfOpen? then 0 else r.doublings)
    case Fail(now) =>
      s.(b := Failure(r.b, now), clock := now, doublings := DoublingsAfterFailure(r.b, r.doublings),
         openedAt := if r.b.state.Closed? then now else r.openedAt)
    case Check(now) => s.(clock := now)
  }

  predicate AllInTime(r: Run, es: seq<Event>)
    decreases |es|
  {
    es == [] || (InTime(r, es[0]) && AllInTime(Happen(r, es[0]), es[1..]))
  }

  function HappenAll(r: Run, es: seq<Event>): Run
    decreases |es|
  {
    if es == [] then r else HappenAll(Happen(r, es[0]), es[1..])
  }

  predicate RunOk(r: Run) {
    && BreakerOk(r.b, r.doublings)
    && r.b.failures <= r.events
    && (!r.b.state.Closed? ==> r.b.lastFailure <= r.clock)
    && (r.b.state.HalfOpen? ==> r.clock - r.b.lastFailure >= r.b.backoff)
    && (!r.b.state.Closed? ==> r.b.lastFailure - r.openedAt >= MIN_BACKOFF * (Power(r.doublings) - 1))
    && r.probes == r.episodes
  }

  lemma HappenOk(r: Run, e: Event)
    requires RunOk(r) && InTime(r, e) && r.events < MAX_INT32
    ensures RunOk(Happen(r, e))
  {
    BackoffBound(r.b, r.doublings);
    match e
    case Ask(now) => AllowKeeps(r.b, r.doublings, now);
    case Fine => SuccessKeeps(r.b, r.doublings);
    case Fail(now) =>
      FailureKeeps(r.b, r.doublings, now);
      NoWrap(r.b.failures);
    case Check(now) =>
  }

  /**
   * Over every run of fewer than 2^31 calls on a clock that never goes back:
   * the failure bands and the back-off bounds hold, each half-open episode
   * admits exactly one caller, and d doublings take at least 100ms * (2^d - 1).
   */
  lemma {:induction false} RunsStayOk(r: Run, es: seq<Event>)
    requires RunOk(r) && AllInTime(r, es) && r.events + |es| <= MAX_INT32
    ensures RunOk(HappenAll(r, es))
    decreases |es|
  {
    if es != [] {
      HappenOk(r, es[0]);
      RunsStayOk(Happen(r, es[0]), es[1..]);
    }
  }

  lemma StartOk(clock: int)
    ensures RunOk(Start(clock))
  {
    assert Power(0) == 1;
  }

  /**
   * BackoffDuration and Allow agree at every moment of every run: a positive
   * wait means refusal; no wait means admission when open or blocked; in
   * half-open there is never a wait, yet nobody is admitted and nothing changes.
   * When open or blocked, the wait is exactly the time until somebody is admitted.
   */
  lemma WaitAgreesWithAllow(r: Run, now: int)
    requires RunOk(r) && r.clock <= now
    ensures BackoffDuration(r.b, now) > 0 ==> Allow(r.b, now) == (r.b, false)
    ensures (r.b.state.Open? || r.b.state.Blocked?) && BackoffDuration(r.b, now) == 0 ==> Allow(r.b, now).1
    ensures r.b.state.HalfOpen? ==> BackoffDuration(r.b, now) == 0 && Allow(r.b, now) == (r.b, false)
    ensures BackoffDuration(r.b, now) >= 0
    ensures r.b.state.Open? || r.b.state.Blocked? ==>
      forall later :: later >= now ==> (Allow(r.b, later).1 <==> later - now >= BackoffDuration(r.b, now))
  {
    BackoffBound(r.b, r.doublings);
  }

  /** A probe out of Blocked comes at least 30 seconds after the last failure, one out of Open at least 100ms * 2^d. */
  lemma ProbesWait(r: Run, now: int)
    requires RunOk(r) && Allow(r.b, now).1
    ensures r.b.state.Blocked? ==> now - r.b.lastFailure >= MAX_BACKOFF
    ensures r.b.state.Open? ==> now - r.b.lastFailure >= MIN_BACKOFF * Power(r.doublings)
    ensures !r.b.state.HalfOpen?
  {
  }

  /** Since time t: a blocked breaker has failed at or after t. */
  predicate FailedSince(r: Run, t: int) {
    t <= r.clock && (r.b.state.Blocked? ==> t <= r.b.lastFailure)
  }

  lemma {:induction false} StaysFailedSince(r: Run, es: seq<Event>, t: int)
    requires FailedSince(r, t) && AllInTime(r, es)
    ensures FailedSince(HappenAll(r, es), t)
    decreases |es|
  {
    if es != [] {
      StaysFailedSince(Happen(r, es[0]), es[1..], t);
    }
  }

  /**
   * Over any run, two probes out of Blocked are at least 30 seconds apart: from
   * one at time t to any later one at time u, with any calls in between.
   */
  lemma BlockedProbesApart(r: Run, t: int, es: seq<Event>, u: int)
    requires r.b.state.Blocked? && r.clock <= t && Allow(r.b, t).1
    requires AllInTime(Happen(r, Ask(t)), es)
    requires var later := HappenAll(Happen(r, Ask(t)), es);
      later.b.state.Blocked? && later.clock <= u && Allow(later.b, u).1
    ensures u - t >= MAX_BACKOFF
  {
    StaysFailedSince(Happen(r, Ask(t)), es, t);
  }

  // ---- A probe whose outcome is never recorded ----

  predicate Unrecorded(es: seq<Event>) {
    forall i :: 0 <= i < |es| ==> es[i].Ask? || es[i].Check?
  }

  /** Without a recorded outcome a half-open breaker never changes and never admits again. */
  lemma {:induction false} UnrecordedProbeBlocks(r: Run, es: seq<Event>, now: int)
    requires r.b.state.HalfOpen? && r.b.halfOpenCount == HALF_OPEN_MAX && Unrecorded(es)
    ensures HappenAll(r, es).b == r.b && !Allow(HappenAll(r, es).b, now).1
    decreases |es|
  {
    if es != [] {
      UnrecordedProbeBlocks(Happen(r, es[0]), es[1..], now);
    }
  }

  /** A recorded outcome frees the breaker: at once after a success, after at most 30 seconds after a failure. */
  lemma OutcomeFrees(b: Breaker, d: nat, t: int, now: int)
    requires BreakerOk(b, d) && b.state.HalfOpen? && b.failures < MAX_INT32
    ensures Allow(Success(b), now).1
    ensures now - t >= MAX_BACKOFF ==> Allow(Failure(b, t), now).1
  {
    FailureKeeps(b, d, t);
    BackoffBound(Failure(b, t), DoublingsAfterFailure(b, d));
  }

  /** Somewhere along the run a call at some time would be admitted. */
  ghost predicate AdmitsWithin(r: Run, es: seq<Event>) {
    exists i, now :: 0 <= i <= |es| && Allow(HappenAll(r, es[..i]).b, now).1
  }

  lemma {:induction false} OutcomeAdmits(r: Run, d: nat, es: seq<Event>)
    requires BreakerOk(r.b, d) && r.b.state.HalfOpen? && r.b.failures < MAX_INT32 && !Unrecorded(es)
    ensures AdmitsWithin(r, es)
    decreases |es|
  {
    var t := Happen(r, es[0]);
    if es[0].Fine? || es[0].Fail? {
      var at := if es[0].Fail? then es[0].now else 0;
      OutcomeFrees(r.b, d, at, at + MAX_BACKOFF);
      assert es[..1][1..] == [] && HappenAll(r, es[..1]) == t;
    } else {
      OutcomeAdmits(t, d, es[1..]);
      var i, now :| 0 <= i <= |es[1..]| && Allow(HappenAll(t, es[1..][..i]).b, now).1;
      assert es[..i + 1][1..] == es[1..][..i];
      assert HappenAll(r, es[..i + 1]) == HappenAll(t, es[1..][..i]);
    }
  }

  /** A half-open breaker admits anybody again, at whatever time, if and only if an outcome is recorded. */
  lemma RecoversExactly(r: Run, d: nat, es: seq<Event>)
    requires BreakerOk(r.b, d) && r.b.state.HalfOpen? && r.b.failures < MAX_INT32
    ensures AdmitsWithin(r, es) <==> !Unrecorded(es)
  {
    if Unrecorded(es) {
      forall i, now | 0 <= i <= |es|
        ensures !Allow(HappenAll(r, es[..i]).b, now).1
      {
        UnrecordedProbeBlocks(r, es[..i], now);
      }
    } else {
      OutcomeAdmits(r, d, es);
    }
  }

  lemma Before(r: Run, e: Event, es: seq<Event>)
    ensures AllInTime(r, [e] + es) <==> InTime(r, e) && AllInTime(Happen(r, e), es)
    ensures HappenAll(r, [e] + es) == HappenAll(Happen(r, e), es)
  {
    assert ([e] + es)[1..] == es;
  }

  const OPENED := Run(Breaker(Open, 3, 0, 0, MIN_BACKOFF), 0, 0, 0, 0, 0, 3)
  const PROBING := Run(Breaker(HalfOpen, 3, 0, 1, MIN_BACKOFF), MIN_BACKOFF, 0, 0, 1, 1, 4)

  lemma ThirdFailureOpens()
    ensures Happen(Happen(Happen(Start(0), Fail(0)), Fail(0)), Fail(0)) == OPENED
  {
    NoWrap(0);
    NoWrap(1);
    NoWrap(2);
  }

  /** One run that gets there: three failures at time 0, and a probe once the backoff is over. */
  lemma ReachProbe() returns (run: seq<Event>)
    ensures AllInTime(Start(0), run) && HappenAll(Start(0), run) == PROBING
  {
    ThirdFailureOpens();
    var r1 := Happen(Start(0), Fail(0));
    var r2 := Happen(r1, Fail(0));
    run := [Ask(MIN_BACKOFF)];
    assert run == [Ask(MIN_BACKOFF)] + [];
    Before(OPENED, Ask(MIN_BACKOFF), []);
    Before(r2, Fail(0), run);
    run := [Fail(0)] + run;
    Before(r1, Fail(0), run);
    run := [Fail(0)] + run;
    Before(Start(0), Fail(0), run);
    run := [Fail(0)] + run;
  }

  /**
   * So a probe that is admitted and ends without a record, as after a failed
   * address look-up, shuts the target off for good: after any run from the start
   * that leaves the breaker half-open, as that of ReachProbe, no call is admitted
   * until somebody records an outcome.
   */
  lemma ForgottenProbe(clock: int, run: seq<Event>, es: seq<Event>, now: int)
    requires AllInTime(Start(clock), run) && |run| <= MAX_INT32 && Unrecorded(es)
    requires HappenAll(Start(clock), run).b.state.HalfOpen?
    ensures !Allow(HappenAll(HappenAll(Start(clock), run), es).b, now).1
  {
    StartOk(clock);
    RunsStayOk(Start(clock), run);
    UnrecordedProbeBlocks(HappenAll(Start(clock), run), es, now);
  }
}
