/** Weighted round robin inside the balancer: its shares over interleaved dials. */
module Cycles {
  import opened Machine
  import opened Metrics
  import opened Pools
  import opened Runs
  import opened Strategies
  import Wrr = WeightedRoundRobin

  /** The weights of the present members. */
  function Weights(w: World): (r: seq<nat>)
    ensures |r| == |w.pool.members| && Wrr.Positive(r)
  {
    Wrr.WeightsOf(Rtts(MetricsOf(w.pool)))
  }

  /** The strategy stands before pick `n` of the exact schedule. A strategy that has not seen the
      present RTTs stands before pick 0. */
  ghost predicate AtTurn(w: World, n: nat) {
    && w.strategy.WeightedRoundRobin? && WellFormed(w.strategy) && w.pool.members != []
    && Wrr.Refresh(w.strategy.wrr, Rtts(MetricsOf(w.pool))).picks == Wrr.Counts(Weights(w), n)
  }

  /** The schedule fits u64 from pick `n` on for `k` picks. */
  predicate FitsFrom(weights: seq<nat>, n: nat, k: nat)
    decreases k
  {
    k > 0 ==>
      && Wrr.Fits(Wrr.Counts(weights, n), weights) && Wrr.AtMost(Wrr.Counts(weights, n + 1), U64_MAX)
      && FitsFrom(weights, n + 1, k - 1)
  }

  /** Steps that change neither the set of backends nor the strategy object. */
  predicate Steady(step: Step) { !Reconfigures(step) && !step.SetStrategy? }

  lemma RttsStay(w: World, step: Step)
    requires Formed(w) && Enabled(w, step) && Steady(step)
    ensures Rtts(MetricsOf(Apply(w, step).pool)) == Rtts(MetricsOf(w.pool))
    ensures |Apply(w, step).pool.members| == |w.pool.members|
  {
    hide Apply, Enabled, Formed, Touched;
    InPlace(w, step);
    var v := Apply(w, step);
    forall k | 0 <= k < |w.pool.members| ensures v.pool.members[k].metrics.rtt == w.pool.members[k].metrics.rtt {
      if k != Touched(w, step) { assert v.pool.members[k] == w.pool.members[k]; }
    }
  }

  lemma StrategyStays(w: World, step: Step)
    requires Formed(w) && Enabled(w, step) && Steady(step) && w.strategy.WeightedRoundRobin?
    ensures Apply(w, step).strategy == if step.BeginDial? then Picked(w, step.draw).0 else w.strategy
  {
    hide Formed, WellFormed, Picked, Noted, Holds, Begin, Succeed, Fail, Release, Drain, Undrain;
  }

  /** A pick is the schedule's turn. */
  lemma PickIsTurn(w: World, draw: nat, n: nat)
    requires Formed(w) && AtTurn(w, n) && FitsFrom(Weights(w), n, 1)
    ensures var (s, i) := Picked(w, draw);
            && i == Wrr.Turn(Weights(w), n) && s.WeightedRoundRobin?
            && s.wrr.rtts == Rtts(MetricsOf(w.pool)) && s.wrr.picks == Wrr.Counts(Weights(w), n + 1)
  {
    var view := Rtts(MetricsOf(w.pool));
    var t := Wrr.Refresh(w.strategy.wrr, view);
    hide Wrr.Counts, Wrr.Fits, Wrr.AtMost, Wrr.Turn, Wrr.PickStep, Wrr.Refresh, Wrr.WeightsOf, Formed;
    Wrr.RefreshFirst(w.strategy.wrr, view);
    Wrr.PickFollowsSchedule(t, n);
  }

  lemma TurnStep(w: World, step: Step, n: nat)
    requires Formed(w) && Enabled(w, step) && Steady(step) && AtTurn(w, n)
    requires step.BeginDial? ==> FitsFrom(Weights(w), n, 1)
    ensures Weights(Apply(w, step)) == Weights(w)
    ensures AtTurn(Apply(w, step), if step.BeginDial? then n + 1 else n)
    ensures forall i :: 0 <= i < |w.pool.members| ==>
              Wrr.Counts(Weights(w), if step.BeginDial? then n + 1 else n)[i]
              == Wrr.Counts(Weights(w), n)[i] + BegunBy(w, step, i)
  {
    hide Apply, Enabled, Formed, WellFormed, Picked, FitsFrom, Wrr.Counts, Wrr.WeightsOf, Wrr.Turn;
    RttsStay(w, step);
    StrategyStays(w, step);
    if step.BeginDial? {
      PickIsTurn(w, step.draw, n);
      forall i | 0 <= i < |w.pool.members|
        ensures Wrr.Counts(Weights(w), n + 1)[i] == Wrr.Counts(Weights(w), n)[i] + BegunBy(w, step, i)
      {
        Wrr.TurnCounts(Weights(w), n, i);
      }
    }
  }

  /** However dials, guards, errors, cancellations and drains interleave, the picks are those of
      the exact schedule, and each backend's dials begun grow by its share of it. */
  lemma {:induction false} DialsFollowSchedule(w: World, steps: seq<Step>, n: nat, i: nat)
    requires Formed(w) && Possible(w, steps) && AtTurn(w, n) && i < |w.pool.members|
    requires forall k :: 0 <= k < |steps| ==> Steady(steps[k])
    requires FitsFrom(Weights(w), n, Begun(steps))
    ensures var v := Run(w, steps);
            AtTurn(v, n + Begun(steps)) && Weights(v) == Weights(w)
    ensures Wrr.Counts(Weights(w), n + Begun(steps))[i] == Wrr.Counts(Weights(w), n)[i] + BegunOn(w, steps, i)
    decreases |steps|
  {
    hide Apply, Enabled, AtTurn, BegunBy, Weights, Wrr.Counts, Wrr.Fits, Wrr.AtMost, Formed;
    if steps == [] {
    } else {
      RunStep(w, steps);
      var step := steps[0];
      TurnStep(w, step, n);
      RttsStay(w, step);
      assert IndexAfter(step, i) == i && forall k :: 0 <= k < |steps| - 1 ==> steps[1..][k] == steps[k + 1];
      DialsFollowSchedule(Apply(w, step), steps[1..], if step.BeginDial? then n + 1 else n, i);
    }
  }

  /** Over any interleaving in which the pool stays, a run with as many dials as the weights add
      up to begins on each backend exactly as many dials as its weight. */
  lemma AnyCycleIsExact(w: World, steps: seq<Step>, n: nat, i: nat)
    requires Formed(w) && Possible(w, steps) && AtTurn(w, n) && i < |w.pool.members|
    requires forall k :: 0 <= k < |steps| ==> Steady(steps[k])
    requires Begun(steps) == Sum(Weights(w)) && FitsFrom(Weights(w), n, Begun(steps))
    ensures var v := Run(w, steps);
            && i < |v.accounts|
            && v.accounts[i].tally.began == w.accounts[i].tally.began + Weights(w)[i]
  {
    hide Possible, Run, AtTurn, BegunOn, Weights, Wrr.Counts, FitsFrom, Formed;
    SteadyKeeps(steps, i);
    BeganOverRun(w, steps, i);
    DialsFollowSchedule(w, steps, n, i);
    Wrr.CountsPeriodic(Weights(w), n);
  }

  lemma WeightOfMember(w: World, i: nat)
    requires Formed(w) && i < |w.pool.members|
    ensures Weights(w)[i] == Wrr.Weight(w.pool.members[i].metrics.rtt) && i < |w.accounts|
  {
    hide Wrr.Weight;
  }

  /** So the dials begun on a backend over such a cycle are inverse to its RTT. */
  lemma CycleInverseToRtt(w: World, steps: seq<Step>, n: nat, i: nat)
    requires Formed(w) && Possible(w, steps) && AtTurn(w, n) && i < |w.pool.members|
    requires forall k :: 0 <= k < |steps| ==> Steady(steps[k])
    requires Begun(steps) == Sum(Weights(w)) && FitsFrom(Weights(w), n, Begun(steps))
    ensures i < |Run(w, steps).accounts|
    ensures var dials: int := Run(w, steps).accounts[i].tally.began - w.accounts[i].tally.began;
            Wrr.InverseTo(dials, w.pool.members[i].metrics.rtt)
  {
    hide *;
    WeightOfMember(w, i);
    AnyCycleIsExact(w, steps, n, i);
    Wrr.WeightIsInverse(w.pool.members[i].metrics.rtt);
  }

  lemma {:induction false} SteadyKeeps(steps: seq<Step>, i: nat)
    requires forall k :: 0 <= k < |steps| ==> Steady(steps[k])
    ensures KeepsAll(steps, i) && IndexAfterAll(steps, i) == i
  {
    if steps == [] {
    } else {
      SteadyKeeps(steps[1..], i);
    }
  }
}
