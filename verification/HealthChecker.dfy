/**
 * Tunnel health with two thresholds. The counters are 32-bit and wrap; the
 * health of a tunnel is shown to be a function of its history of outcomes.
 */
module Health {
  const WORD: nat := 0x1_0000_0000

  const DEFAULT_UNHEALTHY_THRESHOLD: nat := 2
  const DEFAULT_HEALTHY_THRESHOLD: nat := 1

  datatype Outcome = Good | Bad

  /** A change report: the new health, and the failure count it carries. */
  datatype Report = Report(healthy: bool, failCount: nat)

  datatype Thresholds = Thresholds(unhealthy: nat, healthy: nat)

  predicate Sensible(t: Thresholds) {
    1 <= t.unhealthy < WORD && 1 <= t.healthy < WORD
  }

  datatype Option<+T> = None | Some(value: T)

  /** The configuration may be absent, and a zero in it means the default. */
  function Configured(config: Option<Thresholds>): (t: Thresholds)
    requires config.Some? ==> config.value.unhealthy < WORD && config.value.healthy < WORD
    ensures Sensible(t)
    ensures t.unhealthy == if config.Some? && config.value.unhealthy > 0 then config.value.unhealthy else DEFAULT_UNHEALTHY_THRESHOLD
    ensures t.healthy == if config.Some? && config.value.healthy > 0 then config.value.healthy else DEFAULT_HEALTHY_THRESHOLD
  {
    match config
    case None => Thresholds(DEFAULT_UNHEALTHY_THRESHOLD, DEFAULT_HEALTHY_THRESHOLD)
    case Some(c) => Thresholds(
      if c.unhealthy > 0 then c.unhealthy else DEFAULT_UNHEALTHY_THRESHOLD,
      if c.healthy > 0 then c.healthy else DEFAULT_HEALTHY_THRESHOLD)
  }

  // ---- One tunnel ----

  datatype Tunnel = Tunnel(failureCount: nat, successCount: nat, healthy: bool, reports: seq<Report>)

  const FRESH := Tunnel(0, 0, true, [])

  function Failed(s: Tunnel, t: Thresholds): Tunnel {
    var f := (s.failureCount + 1) % WORD;
    var s' := s.(failureCount := f, successCount := 0);
    if f >= t.unhealthy && s.healthy then s'.(healthy := false, reports := s.reports + [Report(false, f)]) else s'
  }

  function Succeeded(s: Tunnel, t: Thresholds): Tunnel {
    var n := (s.successCount + 1) % WORD;
    var s' := s.(failureCount := 0, successCount := n);
    if n >= t.healthy && !s.healthy then s'.(healthy := true, reports := s.reports + [Report(true, 0)]) else s'
  }

  function Recorded(s: Tunnel, t: Thresholds, o: Outcome): Tunnel {
    if o.Good? then Succeeded(s, t) else Failed(s, t)
  }

  function Replay(t: Thresholds, h: seq<Outcome>): Tunnel {
    if h == [] then FRESH else Recorded(Replay(t, h[..|h| - 1]), t, h[|h| - 1])
  }

  // ---- What the history says, without counters ----

  /** The n outcomes up to position p are all o. */
  predicate RunEnds(h: seq<Outcome>, p: int, n: nat, o: Outcome) {
    n <= p <= |h| && forall i :: p - n <= i < p ==> h[i] == o
  }

  /** Failures filled the threshold at p, and no later run of successes did. */
  predicate DownSince(t: Thresholds, h: seq<Outcome>, p: nat) {
    RunEnds(h, p, t.unhealthy, Bad) && forall q :: p < q <= |h| ==> !RunEnds(h, q, t.healthy, Good)
  }

  ghost predicate Unhealthy(t: Thresholds, h: seq<Outcome>) {
    exists p: nat :: DownSince(t, h, p)
  }

  /** Reports alternate, the first is bad news, and bad news carries exactly the threshold. */
  predicate Alternating(t: Thresholds, rs: seq<Report>) {
    forall i :: 0 <= i < |rs| ==> rs[i] == if i % 2 == 0 then Report(false, t.unhealthy) else Report(true, 0)
  }

  /** How long the current run of equal outcomes is. */
  function Trailing(h: seq<Outcome>, o: Outcome): (n: nat)
    ensures n <= |h|
  {
    if h != [] && h[|h| - 1] == o then Trailing(h[..|h| - 1], o) + 1 else 0
  }

  lemma {:induction false} TrailingMeans(h: seq<Outcome>, o: Outcome, n: nat)
    ensures RunEnds(h, |h|, n, o) <==> n <= Trailing(h, o)
  {
    if n > 0 && h != [] && h[|h| - 1] == o {
      var init := h[..|h| - 1];
      TrailingMeans(init, o, n - 1);
      assert RunEnds(h, |h|, n, o) <==> RunEnds(init, |init|, n - 1, o) by {
        if RunEnds(h, |h|, n, o) {
          assert forall i :: |init| - (n - 1) <= i < |init| ==> init[i] == h[i] == o;
        }
        if RunEnds(init, |init|, n - 1, o) {
          assert forall i :: |h| - n <= i < |h| - 1 ==> h[i] == init[i] == o;
        }
      }
    } else if n > 0 && h != [] {
      assert h[|h| - 1] != o;
    }
  }

  /** The state after a history: the counters, wrapped, and the verdict with its reports. */
  predicate Faithful(t: Thresholds, h: seq<Outcome>, s: Tunnel) {
    && s.failureCount == Trailing(h, Bad) % WORD
    && s.successCount == Trailing(h, Good) % WORD
    && (Trailing(h, Bad) >= t.unhealthy ==> !s.healthy)
    && (Trailing(h, Good) >= t.healthy ==> s.healthy)
    && Alternating(t, s.reports)
    && s.healthy == (|s.reports| % 2 == 0)
  }

  lemma FaithfulStep(t: Thresholds, h: seq<Outcome>, s: Tunnel, o: Outcome)
    requires Sensible(t) && Faithful(t, h, s)
    ensures Faithful(t, h + [o], Recorded(s, t, o))
  {
    assert (h + [o])[..|h|] == h;
    var s' := Recorded(s, t, o);
    var n := Trailing(h, o);
    assert Trailing(h + [o], o) == n + 1;
    assert ((n % WORD) + 1) % WORD == (n + 1) % WORD by { WrapStep(n); }
    // below the threshold the counter has not wrapped; above it the verdict is already in
    if n + 1 < WORD {
      assert n % WORD == n && (n + 1) % WORD <= n + 1;
    }
  }

  lemma WrapStep(n: nat)
    ensures ((n % WORD) + 1) % WORD == (n + 1) % WORD
  {
  }

  lemma {:induction false} ReplayFaithful(t: Thresholds, h: seq<Outcome>)
    requires Sensible(t)
    ensures Faithful(t, h, Replay(t, h))
  {
    if h != [] {
      var init := h[..|h| - 1];
      ReplayFaithful(t, init);
      FaithfulStep(t, init, Replay(t, init), h[|h| - 1]);
      assert init + [h[|h| - 1]] == h;
    }
  }

  lemma RunEndsEarlier(h: seq<Outcome>, o: Outcome, p: int, n: nat, x: Outcome)
    requires p <= |h|
    ensures RunEnds(h + [o], p, n, x) <==> RunEnds(h, p, n, x)
  {
    assert forall i :: 0 <= i < |h| ==> (h + [o])[i] == h[i];
  }

  /** One more outcome: down stays down unless the good run is now long enough. */
  lemma UnhealthyStep(t: Thresholds, h: seq<Outcome>, o: Outcome)
    requires Sensible(t)
    ensures var k := h + [o];
      Unhealthy(t, k) <==>
        RunEnds(k, |k|, t.unhealthy, Bad) || (Unhealthy(t, h) && !RunEnds(k, |k|, t.healthy, Good))
  {
    var k := h + [o];
    if p: nat :| DownSince(t, k, p) {
      if p < |k| {
        RunEndsEarlier(h, o, p, t.unhealthy, Bad);
        forall q | p < q <= |h| ensures !RunEnds(h, q, t.healthy, Good) { RunEndsEarlier(h, o, q, t.healthy, Good); }
        assert DownSince(t, h, p);
      }
    }
    if RunEnds(k, |k|, t.unhealthy, Bad) {
      assert DownSince(t, k, |k|);
    }
    if !RunEnds(k, |k|, t.healthy, Good) {
      if p: nat :| DownSince(t, h, p) {
        RunEndsEarlier(h, o, p, t.unhealthy, Bad);
        forall q | p < q <= |k| ensures !RunEnds(k, q, t.healthy, Good) {
          if q < |k| { RunEndsEarlier(h, o, q, t.healthy, Good); }
        }
        assert DownSince(t, k, p);
      }
    }
  }

  /**
   * Health is a function of history: a tunnel is unhealthy exactly when the
   * latest run to fill its threshold was a run of failures. Wrapping counters
   * make no difference, however long the run.
   */
  lemma {:induction false} HealthIsHistory(t: Thresholds, h: seq<Outcome>)
    requires Sensible(t)
    ensures !Replay(t, h).healthy <==> Unhealthy(t, h)
  {
    if h == [] {
      assert forall p: nat :: !RunEnds(h, p, t.unhealthy, Bad);
    } else {
      var init, o := h[..|h| - 1], h[|h| - 1];
      assert init + [o] == h;
      HealthIsHistory(t, init);
      UnhealthyStep(t, init, o);
      ReplayFaithful(t, init);
      ReplayFaithful(t, h);
      TrailingMeans(h, Bad, t.unhealthy);
      TrailingMeans(h, Good, t.healthy);
      assert Trailing(h, if o.Good? then Bad else Good) == 0;
    }
  }

  /** Reports strictly alternate, starting with unhealthy; an unhealthy one counts exactly the threshold. */
  lemma ReportsAlternate(t: Thresholds, h: seq<Outcome>)
    requires Sensible(t)
    ensures Alternating(t, Replay(t, h).reports)
    ensures Replay(t, h).healthy <==> |Replay(t, h).reports| % 2 == 0
  {
    ReplayFaithful(t, h);
  }

  // ---- The object ----

  /** Tunnel i's state is the replay of the outcomes recorded for i. */
  class HealthChecker {
    const thresholds: Thresholds
    var states: seq<Tunnel>
    ghost var history: seq<seq<Outcome>>

    ghost predicate Valid()
      reads this
    {
      && Sensible(thresholds) && |history| == |states|
      && forall i :: 0 <= i < |states| ==> states[i] == Replay(thresholds, history[i])
    }

    constructor (count: nat, config: Option<Thresholds>)
      requires config.Some? ==> config.value.unhealthy < WORD && config.value.healthy < WORD
      ensures Valid() && thresholds == Configured(config)
      ensures history == seq(count, _ => []) && forall i :: 0 <= i < count ==> states[i] == FRESH
    {
      thresholds := Configured(config);
      states := seq(count, _ => FRESH);
      history := seq(count, _ => []);
    }

    ghost function Extended(idx: int, o: Outcome): seq<seq<Outcome>>
      reads this
    {
      if 0 <= idx < |history| then history[idx := history[idx] + [o]] else history
    }

    method RecordFailure(idx: int) returns (became: bool)
      requires Valid()
      modifies this
      ensures Valid() && history == old(Extended(idx, Bad))
      ensures became <==> 0 <= idx < |states| && old(states)[idx].healthy && !states[idx].healthy
    {
      if idx < 0 || idx >= |states| {
        return false;
      }
      var s := states[idx];
      var failures := (s.failureCount + 1) % WORD;
      s := s.(successCount := 0, failureCount := failures);
      became := failures >= thresholds.unhealthy && s.healthy;
      if became {
        s := s.(healthy := false, reports := s.reports + [Report(false, failures)]);
      }
      states := states[idx := s];
      history := history[idx := history[idx] + [Bad]];
      assert history[idx][..|history[idx]| - 1] == old(history)[idx];
    }

    method RecordSuccess(idx: int) returns (became: bool)
      requires Valid()
      modifies this
      ensures Valid() && history == old(Extended(idx, Good))
      ensures became <==> 0 <= idx < |states| && !old(states)[idx].healthy && states[idx].healthy
    {
      if idx < 0 || idx >= |states| {
        return false;
      }
      var s := states[idx];
      var successes := (s.successCount + 1) % WORD;
      s := s.(failureCount := 0, successCount := successes);
      became := successes >= thresholds.healthy && !s.healthy;
      if became {
        s := s.(healthy := true, reports := s.reports + [Report(true, 0)]);
      }
      states := states[idx := s];
      history := history[idx := history[idx] + [Good]];
      assert history[idx][..|history[idx]| - 1] == old(history)[idx];
    }

    /** The healthy tunnels, in index order. */
    method GetHealthyIndices() returns (indices: seq<int>)
      ensures forall i :: i in indices <==> 0 <= i < |states| && states[i].healthy
      ensures forall j, k :: 0 <= j < k < |indices| ==> indices[j] < indices[k]
    {
      indices := [];
      for i := 0 to |states|
        invariant forall k :: k in indices <==> 0 <= k < i && states[k].healthy
        invariant forall j :: 0 <= j < |indices| ==> indices[j] < i
        invariant forall j, k :: 0 <= j < k < |indices| ==> indices[j] < indices[k]
      {
        if states[i].healthy {
          indices := indices + [i];
        }
      }
    }
  }
}
