/** The health checker's counters and passive dial recording. */
module Health {
  import opened Metrics

  /** Everything one check result updates for one backend. */
  datatype Tracked = Tracked(failures: U32, successes: U32, metrics: TunnelMetrics)

  /** One check result applied to one backend. */
  function Check(t: Tracked, ok: bool, healthyThreshold: U32): Tracked {
    if ok then
      var successes := IncWrap32(t.successes);
      Tracked(0, successes,
              if successes >= healthyThreshold then t.metrics.(recentErrors := 0) else t.metrics)
    else
      var failures := IncWrap32(t.failures);
      Tracked(failures, 0,
              t.metrics.(recentErrors := failures, totalErrors := IncSat64(t.metrics.totalErrors)))
  }

  /** A backend's state after a history of check results, oldest first. */
  function After(seed: TunnelMetrics, history: seq<bool>, healthyThreshold: U32): Tracked {
    if history == [] then Tracked(0, 0, seed)
    else Check(After(seed, history[..|history| - 1], healthyThreshold), history[|history| - 1], healthyThreshold)
  }

  /** The length of the run of `b` at the end of a history. */
  function Trail(history: seq<bool>, b: bool): (n: nat)
    ensures n <= |history|
    ensures forall i :: |history| - n <= i < |history| ==> history[i] == b
    ensures n < |history| ==> history[|history| - n - 1] != b
  {
    if history == [] || history[|history| - 1] != b then 0
    else Trail(history[..|history| - 1], b) + 1
  }

  function Failures(history: seq<bool>): nat {
    if history == [] then 0
    else Failures(history[..|history| - 1]) + (if history[|history| - 1] then 0 else 1)
  }

  function Wrap32(n: nat): U32 { n % 0x1_0000_0000 }

  lemma WrapStep(n: nat)
    ensures Wrap32(n + 1) == IncWrap32(Wrap32(n))
  {}

  /** The counters are the trailing run lengths as u32, and total errors counts every failure. */
  lemma {:induction false} CountersAreTrails(seed: TunnelMetrics, history: seq<bool>, threshold: U32)
    ensures var t := After(seed, history, threshold);
            && t.failures == Wrap32(Trail(history, false))
            && t.successes == Wrap32(Trail(history, true))
            && t.metrics.totalErrors == Min(U64_MAX, seed.totalErrors + Failures(history))
            && t.metrics == seed.(recentErrors := t.metrics.recentErrors, totalErrors := t.metrics.totalErrors)
  {
    if history == [] {
    } else {
      hide Wrap32;
      var before := history[..|history| - 1];
      CountersAreTrails(seed, before, threshold);
      WrapStep(Trail(before, false));
      WrapStep(Trail(before, true));
      WrapSmall(0);
    }
  }

  lemma WrapSmall(n: nat)
    requires n <= U32_MAX
    ensures Wrap32(n) == n
  {}

  /** Recent errors as a function of the history alone: the current failure run; zero once
      the current success run is long enough; otherwise the previous failure run, or the
      seed if there was none. Failure runs count modulo 2^32; success runs do not. */
  function RecentErrors(seed: U32, history: seq<bool>, threshold: U32): U32 {
    if history == [] then seed
    else if !history[|history| - 1] then Wrap32(Trail(history, false))
    else
      var streak := Trail(history, true);
      if streak >= threshold then 0
      else if streak == |history| then seed
      else Wrap32(Trail(history[..|history| - streak], false))
  }

  lemma {:induction false} RecentErrorsClosedForm(seed: TunnelMetrics, history: seq<bool>, threshold: U32)
    ensures After(seed, history, threshold).metrics.recentErrors
         == RecentErrors(seed.recentErrors, history, threshold)
  {
    hide Wrap32;
    CountersAreTrails(seed, history, threshold);
    if history == [] {
    } else if history[|history| - 1] {
      var before, s := history[..|history| - 1], Trail(history, true);
      RecentErrorsClosedForm(seed, before, threshold);
      assert s <= threshold ==> Wrap32(s) == s by { if s <= threshold { WrapSmall(s); } }
      if s < |history| { assert history[..|history| - s] == before[..|before| - (s - 1)]; }
    }
  }

  predicate IsHealthy(m: TunnelMetrics, unhealthyThreshold: U32) {
    m.recentErrors < unhealthyThreshold
  }

  /** When a checked backend is routed to: while failing, until the threshold; while
      succeeding, once recovered, or at once if the previous failure run was short. */
  lemma HealthyIff(seed: TunnelMetrics, history: seq<bool>, healthy: U32, unhealthy: U32)
    requires history != []
    ensures IsHealthy(After(seed, history, healthy).metrics, unhealthy) <==>
            if !history[|history| - 1] then Wrap32(Trail(history, false)) < unhealthy
            else if Trail(history, true) >= healthy then 0 < unhealthy
            else if Trail(history, true) == |history| then seed.recentErrors < unhealthy
            else Wrap32(Trail(history[..|history| - Trail(history, true)], false)) < unhealthy
  {
    RecentErrorsClosedForm(seed, history, healthy);
  }

  /** When one more check turns an unhealthy backend healthy. A success does exactly when it
      completes the documented run of successes. A failure does too, exactly when it does not
      follow a failure and one error is still tolerated, or when it wraps the failure count. */
  lemma RecoversIff(seed: TunnelMetrics, history: seq<bool>, ok: bool, healthy: U32, unhealthy: U32)
    requires !IsHealthy(After(seed, history, healthy).metrics, unhealthy)
    ensures IsHealthy(After(seed, history + [ok], healthy).metrics, unhealthy) <==>
            if ok then Trail(history + [ok], true) >= healthy && 0 < unhealthy
            else if Trail(history, false) == 0 then 1 < unhealthy
            else (Trail(history, false) + 1) % 0x1_0000_0000 == 0 && 0 < unhealthy
  {
    hide Wrap32;
    var after := history + [ok];
    assert after[..|after| - 1] == history;
    CountersAreTrails(seed, history, healthy);
    RecentErrorsClosedForm(seed, history, healthy);
    RecentErrorsClosedForm(seed, after, healthy);
    var n := Trail(history, false);
    if !ok {
      WrapStep(n);
      WrapSmall(0);
      WrapIsZeroIff(n + 1);
    } else {
      var s := Trail(after, true);
      WrapStep(s - 1);
      if s <= healthy { WrapSmall(s); }
    }
  }

  lemma WrapIsZeroIff(n: nat)
    ensures Wrap32(n) == 0 <==> n % 0x1_0000_0000 == 0
  {}

  /** With the default thresholds (3 failures, 2 successes) an unhealthy backend counts as
      healthy again without two consecutive successes: success, then failure, restarts the
      failure count at 1. */
  lemma RecoversWithoutThreshold(seed: TunnelMetrics)
    ensures var down := [false, false, false];
            && !IsHealthy(After(seed, down, 2).metrics, 3)
            && !IsHealthy(After(seed, down + [true], 2).metrics, 3)
            && IsHealthy(After(seed, down + [true, false], 2).metrics, 3)
  {
    var down := [false, false, false];
    var a, b := down + [true], down + [true, false];
    assert down[..2] == [false, false] && down[..2][..1] == [false] && down[..2][..1][..0] == [];
    assert Trail([false], false) == 1 && Trail([false, false], false) == 2 && Trail(down, false) == 3;
    assert a[..3] == down && b == a + [false];
    assert Trail(a, true) == 1;
    HealthyIff(seed, down, 2, 3);
    RecoversIff(seed, down, true, 2, 3);
    RecoversIff(seed, a, false, 2, 3);
  }

  /** A backend seeded unhealthy is made healthy by its first check failing. */
  lemma FirstFailureRecovers(seed: TunnelMetrics, healthy: U32, unhealthy: U32)
    requires 2 <= unhealthy <= seed.recentErrors
    ensures !IsHealthy(After(seed, [], healthy).metrics, unhealthy)
    ensures IsHealthy(After(seed, [false], healthy).metrics, unhealthy)
  {
    RecoversIff(seed, [], false, healthy, unhealthy);
    assert [] + [false] == [false];
  }

  // ------------------------------------------------------------ passive path

  function Recorded(m: TunnelMetrics, success: bool): TunnelMetrics {
    if success then m.(recentErrors := 0)
    else m.(recentErrors := IncSat32(m.recentErrors), totalErrors := IncSat64(m.totalErrors))
  }

  method RecordDialResult(metrics: array<TunnelMetrics>, index: nat, success: bool)
    modifies metrics
    ensures metrics[..] == if index < metrics.Length
                           then old(metrics[..])[index := Recorded(old(metrics[index]), success)]
                           else old(metrics[..])
    ensures index < metrics.Length ==>
              var was, now := old(metrics[index]), metrics[index];
              && now.recentErrors == (if success then 0 else Min(0xFFFF_FFFF, was.recentErrors + 1))
              && now.totalErrors == (if success then was.totalErrors
                                     else Min(0xFFFF_FFFF_FFFF_FFFF, was.totalErrors + 1))
              && now.rtt == was.rtt && now.activeConnections == was.activeConnections
              && now.totalDials == was.totalDials
  {
    if index >= metrics.Length {
      return;
    }
    metrics[index] := Recorded(metrics[index], success);
  }

  /** The background loop's state. The metrics vector is shared, so it may be shorter or
      longer than the counter vectors. */
  class HealthChecker {
    var failures: seq<U32>
    var successes: seq<U32>
    var metrics: seq<TunnelMetrics>
    const healthyThreshold: U32

    ghost predicate Valid()
      reads this
    {
      |failures| == |successes|
    }

    ghost function At(i: nat): Tracked
      reads this
      requires Valid() && i < |failures| && i < |metrics|
    {
      Tracked(failures[i], successes[i], metrics[i])
    }

    constructor (backends: nat, metrics: seq<TunnelMetrics>, healthyThreshold: U32)
      ensures Valid() && |failures| == backends && this.metrics == metrics
      ensures this.healthyThreshold == healthyThreshold
      ensures forall i :: 0 <= i < backends && i < |metrics| ==> At(i) == After(metrics[i], [], healthyThreshold)
    {
      failures, successes := seq(backends, _ => 0), seq(backends, _ => 0);
      this.metrics, this.healthyThreshold := metrics, healthyThreshold;
    }

    /** One tick: every backend's result is folded in, skipping results without metrics. */
    method Round(results: seq<bool>)
      requires Valid() && |results| == |failures|
      modifies `failures, `successes, `metrics
      ensures Valid() && |failures| == |results| && |metrics| == |old(metrics)|
      ensures forall i :: 0 <= i < |results| && i < |metrics| ==>
                At(i) == Check(old(At(i)), results[i], healthyThreshold)
      ensures forall i :: |results| <= i < |metrics| ==> metrics[i] == old(metrics)[i]
      ensures forall i :: |metrics| <= i < |results| ==>
                failures[i] == old(failures)[i] && successes[i] == old(successes)[i]
    {
      for i := 0 to |results|
        invariant Valid() && |failures| == |results| && |metrics| == |old(metrics)|
        invariant forall j :: 0 <= j < i && j < |metrics| ==>
                    At(j) == Check(old(At(j)), results[j], healthyThreshold)
        invariant forall j :: i <= j < |results| || |metrics| <= j < |results| ==>
                    failures[j] == old(failures)[j] && successes[j] == old(successes)[j]
        invariant forall j :: i <= j < |metrics| || |results| <= j < |metrics| ==> metrics[j] == old(metrics)[j]
      {
        if i >= |metrics| {
          continue;
        }
        var m := metrics[i];
        if results[i] {
          successes := successes[i := IncWrap32(successes[i])];
          failures := failures[i := 0];
          if successes[i] >= healthyThreshold {
            m := m.(recentErrors := 0);
          }
        } else {
          failures := failures[i := IncWrap32(failures[i])];
          successes := successes[i := 0];
          m := m.(recentErrors := failures[i], totalErrors := IncSat64(m.totalErrors));
        }
        metrics := metrics[i := m];
      }
    }
  }
}
