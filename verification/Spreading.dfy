/** How least connections spreads interleaved dials. */
module Spreading {
  import opened Machine
  import opened Pools
  import opened Runs
  import opened Strategies
  import Selection

  /** Steps that neither change a connection count nor the set of backends or the strategy. */
  predicate KeepsCounts(step: Step) {
    || step.DialOk? || step.CancelDial? || step.ReportErr? || step.CancelReport? || step.GuardCheck?
    || (step.GuardWrite? && !step.lockFree) || step.DrainAt? || step.UndrainAt?
  }

  ghost predicate EvenLoad(w: World, base: nat, n: nat) {
    w.pool.members != [] && Selection.Even(Selection.Active(MetricsOf(w.pool)), base, n)
  }

  lemma CountsUnchanged(w: World, step: Step)
    requires Formed(w) && Enabled(w, step) && KeepsCounts(step) && w.strategy.LeastConnections?
    ensures Selection.Active(MetricsOf(Apply(w, step).pool)) == Selection.Active(MetricsOf(w.pool))
    ensures Apply(w, step).strategy == w.strategy
  {
    InPlace(w, step);
    TouchedCount(w, step);
    hide Formed, Enabled, Apply, Touched;
    var v, i := Apply(w, step), Touched(w, step);
    forall k | 0 <= k < |w.pool.members|
      ensures v.pool.members[k].metrics.activeConnections == w.pool.members[k].metrics.activeConnections
    {
      if k != i { assert v.pool.members[k] == w.pool.members[k]; }
    }
  }

  lemma TouchedCount(w: World, step: Step)
    requires Formed(w) && Enabled(w, step) && KeepsCounts(step) && w.strategy.LeastConnections?
    ensures Apply(w, step).strategy == w.strategy && |Apply(w, step).pool.members| == |w.pool.members|
    ensures var i := Touched(w, step);
            i < |w.pool.members| ==>
              Apply(w, step).pool.members[i].metrics.activeConnections == w.pool.members[i].metrics.activeConnections
  {
    if step.DialOk? || step.CancelDial? {
      EndCounts(w, step.t, step.CancelDial? && step.cleared);
    }
    hide Formed, Begin, AfterBegin, AfterOk, AfterCancel, AfterErr, AfterAdd, AfterRemove, AfterReplace, Picked;
  }

  lemma EndCounts(w: World, t: Ticket, cleared: bool)
    requires Formed(w) && t in w.dials
    ensures var v, u := AfterOk(w, t), AfterCancel(w, t, cleared);
            && v.strategy == w.strategy && |v.pool.members| == |w.pool.members|
            && u.strategy == w.strategy && |u.pool.members| == |w.pool.members|
            && v.pool.members[t.index].metrics.activeConnections == w.pool.members[t.index].metrics.activeConnections
            && u.pool.members[t.index].metrics.activeConnections == w.pool.members[t.index].metrics.activeConnections
  {
    hide WellFormed;
  }

  lemma BeginCounts(w: World, draw: nat)
    requires Formed(w) && w.pool.members != [] && w.strategy.LeastConnections?
    ensures var ms := MetricsOf(w.pool);
            var b := Selection.ArgMin(Selection.LoadKeys(ms));
            && Picked(w, draw) == (w.strategy, b)
            && AfterBegin(w, draw).strategy == w.strategy
            && MetricsOf(AfterBegin(w, draw).pool) == ms[b := Selection.Counted(ms[b])]
  {}

  lemma EvenStep(w: World, step: Step, base: nat, n: nat)
    requires Formed(w) && Enabled(w, step) && Tame(w, step) && w.strategy.LeastConnections? && EvenLoad(w, base, n)
    requires step.BeginDial? || KeepsCounts(step)
    ensures EvenLoad(Apply(w, step), base, n + if step.BeginDial? then 1 else 0)
    ensures Apply(w, step).strategy == w.strategy
  {
    hide Formed, Selection.Even, AfterBegin, Picked;
    if step.BeginDial? {
      BeginCounts(w, step.draw);
      Selection.DialKeepsEven(MetricsOf(w.pool), base, n);
    } else {
      CountsUnchanged(w, step);
      hide Apply, Enabled;
      assert |Selection.Active(MetricsOf(Apply(w, step).pool))| == |w.pool.members|;
    }
  }

  /** However dials interleave, while none fails and no close is counted, least connections
      keeps every count within one of every other: `n` dials lie evenly on the base load. */
  lemma {:induction false} OpensStayEven(w: World, steps: seq<Step>, base: nat, n: nat)
    requires Formed(w) && Legal(w, steps) && w.strategy.LeastConnections? && EvenLoad(w, base, n)
    requires forall i :: 0 <= i < |steps| ==> steps[i].BeginDial? || KeepsCounts(steps[i])
    ensures EvenLoad(Run(w, steps), base, n + Begun(steps))
    decreases |steps|
  {
    hide Formed, Apply, Enabled, Tame, EvenLoad, KeepsCounts;
    if steps == [] {
    } else {
      RunStep(w, steps);
      var step := steps[0];
      EvenStep(w, step, base, n);
      OpensStayEven(Apply(w, step), steps[1..], base, n + if step.BeginDial? then 1 else 0);
    }
  }
}
