/** How far a reported connection count is from the truth, over whole runs. */
module Leaks {
  import opened Books
  import opened Identity
  import opened Machine
  import opened Metrics
  import opened Pools
  import opened Runs
  import opened Strategies

  /** The reported count, less the count the backend joined with, less its dials under way,
      live guards and pending decrements: nought when the count is right. */
  ghost function Inflation(w: World, i: nat): int
    requires i < |w.pool.members| == |w.accounts|
  {
    var t := TicketAt(w.pool, i);
    w.pool.members[i].metrics.activeConnections - w.accounts[i].seed.activeConnections
    - w.dials[t] - w.guards[t] - w.drops[PendingAt(w.pool, i)]
  }

  /** The step loses track of a connection of member `i`: its dial is cancelled, its guard is
      dropped while the lock is held, or a removal changes the generation under a live guard. */
  ghost predicate LosesTrack(w: World, step: Step, i: nat) {
    match step
    case CancelDial(t, _) => t.index == i
    case GuardWrite(d, lockFree) => i < |w.pool.members| && d == PendingAt(w.pool, i) && !lockFree
    case RemoveAt(k) => k < |w.pool.members| && i < |w.pool.members| && TicketAt(w.pool, i) in w.guards
    case _ => false
  }

  /** How many connections it loses track of. */
  ghost function LeakedBy(w: World, step: Step, i: nat): (n: nat)
    ensures n > 0 <==> LosesTrack(w, step, i)
  {
    if !LosesTrack(w, step, i) then 0
    else if step.RemoveAt? then w.guards[TicketAt(w.pool, i)]
    else 1
  }

  ghost function TotalLeaked(w: World, steps: seq<Step>, i: nat): nat
    requires Formed(w) && Possible(w, steps)
    decreases |steps|
  {
    if steps == [] then 0
    else
      RunStep(w, steps);
      LeakedBy(w, steps[0], i) + TotalLeaked(Apply(w, steps[0]), steps[1..], IndexAfter(steps[0], i))
  }

  ghost predicate KeepsTrack(w: World, steps: seq<Step>, i: nat)
    requires Formed(w) && Possible(w, steps)
    decreases |steps|
  {
    steps == [] ||
    (RunStep(w, steps);
     !LosesTrack(w, steps[0], i) && KeepsTrack(Apply(w, steps[0]), steps[1..], IndexAfter(steps[0], i)))
  }

  lemma InflationIsLeaked(w: World, i: nat)
    requires i < |w.pool.members| == |w.accounts| && ConservedAt(w, i)
    ensures Inflation(w, i) == Leaked(w.accounts[i].tally)
  {
    hide Wrap64;
  }

  lemma BlankLeaksNothing()
    ensures Leaked(BLANK) == 0
  {}

  /** A backend joins with a right count, at construction... */
  lemma StartsExact(seeds: seq<TunnelMetrics>, strategy: Strategy, i: nat)
    requires WellFormed(strategy) && i < |seeds|
    ensures var w := Start(seeds, strategy); Formed(w) && DialsCurrent(w) && ConservedAt(w, i) && Inflation(w, i) == 0
  {
    hide Conserved, Inflation, Leaked;
    ConservedFresh(Start(seeds, strategy).accounts[i]);
    InflationIsLeaked(Start(seeds, strategy), i);
    BlankLeaksNothing();
  }

  /** ... and when it is added. */
  lemma AddsExact(w: World, id: Option<string>)
    requires Formed(w) && Exclusive(w) && Known(w)
    ensures var v, n := AfterAdd(w, id), |w.pool.members|;
            |v.accounts| == |v.pool.members| == n + 1 && ConservedAt(v, n) && Inflation(v, n) == 0
  {
    hide Conserved, Inflation, Leaked, WellFormed;
    var v, n := AfterAdd(w, id), |w.pool.members|;
    assert TicketAt(v.pool, n) !in w.guards && PendingAt(v.pool, n) !in w.drops;
    ConservedFresh(v.accounts[n]);
    InflationIsLeaked(v, n);
    BlankLeaksNothing();
  }

  lemma LedgerStep(w: World, step: Step, i: nat)
    requires Formed(w) && Enabled(w, step) && i < |w.pool.members| && Keeps(step, i)
    ensures var v, j := Apply(w, step), IndexAfter(step, i);
            && j < |v.pool.members| == |v.accounts|
            && v.pool.members[j].backend == w.pool.members[i].backend
            && Leaked(v.accounts[j].tally) == Leaked(w.accounts[i].tally) + LeakedBy(w, step, i)
  {
    if Reconfigures(step) {
      ReconfigurationFrame(w, step, i);
      SurvivorKeepsRecord(w, step, IndexAfter(step, i));
      hide Apply, Formed, Enabled;
    } else {
      InPlace(w, step);
      if i == Touched(w, step) { LedgerTouched(w, step); }
      hide Apply, Formed, Enabled;
    }
  }

  lemma LedgerTouched(w: World, step: Step)
    requires Formed(w) && Enabled(w, step) && !Reconfigures(step) && Touched(w, step) < |w.pool.members|
    ensures |Apply(w, step).accounts| == |w.accounts|
    ensures var i := Touched(w, step);
            Leaked(Apply(w, step).accounts[i].tally) == Leaked(w.accounts[i].tally) + LeakedBy(w, step, i)
  {
    hide WellFormed, Picked, Begin, Succeed, Fail, Release, Drain, Undrain, AfterAdd, AfterRemove, AfterReplace;
  }

  lemma InflationStep(w: World, step: Step, i: nat)
    requires Formed(w) && Enabled(w, step) && DialsCurrent(w)
    requires i < |w.pool.members| && Keeps(step, i) && ConservedAt(w, i) && TameFor(w, step, i)
    ensures var v, j := Apply(w, step), IndexAfter(step, i);
            && j < |v.pool.members| == |v.accounts| && ConservedAt(v, j)
            && v.pool.members[j].backend == w.pool.members[i].backend
            && Inflation(v, j) == Inflation(w, i) + LeakedBy(w, step, i)
  {
    hide ConservedAt, Apply, Enabled, TameFor, DialsCurrent, Inflation, Leaked;
    MemberStepIff(w, step, i);
    LedgerStep(w, step, i);
    InflationIsLeaked(w, i);
    InflationIsLeaked(Apply(w, step), IndexAfter(step, i));
  }

  /** Over every run that keeps the backend and is tame for it, its reported count drifts from
      the truth by exactly the connections the run loses track of; so a leak is never repaired. */
  lemma {:induction false} InflationOverRun(w: World, steps: seq<Step>, i: nat)
    requires Formed(w) && Possible(w, steps) && DialsCurrent(w)
    requires i < |w.pool.members| && ConservedAt(w, i) && KeepsAll(steps, i) && TameForAll(w, steps, i)
    ensures var v, j := Run(w, steps), IndexAfterAll(steps, i);
            && j < |v.pool.members| == |v.accounts| && v.pool.members[j].backend == w.pool.members[i].backend
            && Inflation(v, j) == Inflation(w, i) + TotalLeaked(w, steps, i)
    decreases |steps|
  {
    hide ConservedAt, Apply, Enabled, TameFor, DialsCurrent, LeakedBy, Inflation;
    if steps == [] {
    } else {
      RunStep(w, steps);
      InflationStep(w, steps[0], i);
      DialsCurrentStep(w, steps[0]);
      hide Formed;
      InflationOverRun(Apply(w, steps[0]), steps[1..], IndexAfter(steps[0], i));
    }
  }

  lemma {:induction false} NothingLeakedIff(w: World, steps: seq<Step>, i: nat)
    requires Formed(w) && Possible(w, steps)
    ensures TotalLeaked(w, steps, i) == 0 <==> KeepsTrack(w, steps, i)
    decreases |steps|
  {
    hide Apply, Formed, Enabled, LosesTrack;
    if steps == [] {
    } else {
      RunStep(w, steps);
      NothingLeakedIff(Apply(w, steps[0]), steps[1..], IndexAfter(steps[0], i));
    }
  }

  /** A count that was right is right at the end of a run exactly when the run loses track of
      nothing on that backend; otherwise it is too high, never too low. */
  lemma CountRightIff(w: World, steps: seq<Step>, i: nat)
    requires Formed(w) && Possible(w, steps) && DialsCurrent(w)
    requires i < |w.pool.members| && ConservedAt(w, i) && KeepsAll(steps, i) && TameForAll(w, steps, i)
    requires Inflation(w, i) == 0
    ensures var v, j := Run(w, steps), IndexAfterAll(steps, i);
            && j < |v.pool.members| == |v.accounts| && 0 <= Inflation(v, j)
            && (Inflation(v, j) == 0 <==> KeepsTrack(w, steps, i))
  {
    hide DialsCurrent, ConservedAt, Possible, TameForAll, Run, TotalLeaked, KeepsTrack;
    InflationOverRun(w, steps, i);
    NothingLeakedIff(w, steps, i);
  }
}
