/** What draining a backend promises under health-weighted selection. */
module Draining {
  import opened Machine
  import opened Metrics
  import opened Pools
  import opened Runs
  import opened Strategies
  import Selection

  // ---------------------------------------------------- who gets the next dial

  /** Another member scores less than member `i`, or the same further left. */
  predicate Outscored(metrics: seq<TunnelMetrics>, i: nat)
    requires i < |metrics|
  {
    exists j :: 0 <= j < |metrics|
      && (Selection.Score(metrics[j]) < Selection.Score(metrics[i])
          || (j < i && Selection.Score(metrics[j]) == Selection.Score(metrics[i])))
  }

  /** Health-weighted selection skips a backend exactly when it is outscored. */
  lemma SkippedIff(metrics: seq<TunnelMetrics>, i: nat)
    requires i < |metrics|
    ensures Selection.ArgMin(Selection.Scores(metrics)) != i <==> Outscored(metrics, i)
  {
    var s := Selection.Scores(metrics);
    var b := Selection.ArgMin(s);
    if b != i { assert s[b] <= s[i] && (i < b ==> s[b] < s[i]); }
  }

  /** The step keeps member `i` and health-weighted selection. */
  predicate Stays(step: Step, i: nat) { Keeps(step, i) && (step.SetStrategy? ==> step.s.HealthWeighted?) }

  predicate StaysAll(steps: seq<Step>, i: nat) {
    steps != [] ==> Stays(steps[0], i) && StaysAll(steps[1..], IndexAfter(steps[0], i))
  }

  ghost predicate OutscoredAll(w: World, steps: seq<Step>, i: nat)
    requires Formed(w) && Possible(w, steps)
    decreases |steps|
  {
    steps != [] ==>
      && i < |w.pool.members| && (steps[0].BeginDial? ==> Outscored(MetricsOf(w.pool), i))
      && (RunStep(w, steps); OutscoredAll(Apply(w, steps[0]), steps[1..], IndexAfter(steps[0], i)))
  }

  lemma StrategyStays(w: World, step: Step, i: nat)
    requires Formed(w) && Enabled(w, step) && w.strategy.HealthWeighted? && Stays(step, i)
    ensures Apply(w, step).strategy.HealthWeighted?
  {
    hide Stranded, Noted;
  }

  lemma PickedIff(w: World, step: Step, i: nat)
    requires Formed(w) && Enabled(w, step) && w.strategy.HealthWeighted? && i < |w.pool.members| && step.BeginDial?
    ensures BegunBy(w, step, i) == 0 <==> Outscored(MetricsOf(w.pool), i)
  {
    SkippedIff(MetricsOf(w.pool), i);
    hide Outscored;
  }

  lemma {:induction false} BegunIff(w: World, steps: seq<Step>, i: nat)
    requires Formed(w) && Possible(w, steps) && w.strategy.HealthWeighted?
    requires i < |w.pool.members| && StaysAll(steps, i)
    ensures BegunOn(w, steps, i) == 0 <==> OutscoredAll(w, steps, i)
    decreases |steps|
  {
    hide Apply, Enabled, Outscored, Formed;
    if steps == [] {
    } else {
      RunStep(w, steps);
      if steps[0].BeginDial? { PickedIff(w, steps[0], i); }
      BeganStep(w, steps[0], i);
      StrategyStays(w, steps[0], i);
      BegunIff(Apply(w, steps[0]), steps[1..], IndexAfter(steps[0], i));
    }
  }

  lemma {:induction false} StaysKeeps(steps: seq<Step>, i: nat)
    requires StaysAll(steps, i)
    ensures KeepsAll(steps, i)
  {
    if steps == [] {
    } else {
      StaysKeeps(steps[1..], IndexAfter(steps[0], i));
    }
  }

  /** Over every health-weighted run that keeps a backend, drained or not, it gets no new dial
      exactly when it is outscored at each pick. */
  lemma NoNewDialIff(w: World, steps: seq<Step>, i: nat)
    requires Formed(w) && Possible(w, steps) && w.strategy.HealthWeighted?
    requires i < |w.pool.members| && StaysAll(steps, i)
    ensures var v, j := Run(w, steps), IndexAfterAll(steps, i);
            && j < |v.pool.members| == |v.accounts| && v.pool.members[j].backend == w.pool.members[i].backend
            && (v.accounts[j].tally.began == w.accounts[i].tally.began <==> OutscoredAll(w, steps, i))
  {
    hide Possible, Run, BegunOn, OutscoredAll, StaysAll, KeepsAll, IndexAfterAll;
    StaysKeeps(steps, i);
    BeganOverRun(w, steps, i);
    BegunIff(w, steps, i);
  }

  // ---------------------------------------------------------- the drain persists

  /** Member `i` is draining and has no dial under way. */
  ghost predicate Drained(w: World, i: nat) {
    IsDraining(w.pool, i) && forall t :: t in w.dials ==> t.index != i
  }

  /** Draining a member starts a drain: no dial can be under way then. Undraining ends it. */
  lemma DrainTakesEffect(w: World, i: nat)
    requires Formed(w) && Enabled(w, DrainAt(i)) && i < |w.pool.members|
    ensures Drained(Apply(w, DrainAt(i)), i)
    ensures !IsDraining(Apply(w, UndrainAt(i)).pool, i)
  {
    hide WellFormed;
  }

  /** A step on a drained member that begins no dial leaves its mark and RTT alone. */
  lemma MarkKept(w: World, step: Step, i: nat)
    requires Formed(w) && Enabled(w, step) && !Reconfigures(step) && step != UndrainAt(i)
    requires Drained(w, i) && Touched(w, step) == i && !step.BeginDial?
    ensures IsDraining(Apply(w, step).pool, i)
  {
    hide WellFormed, Picked, Noted, AfterBegin, AfterAdd, AfterRemove, AfterReplace;
  }

  lemma DrainedStep(w: World, step: Step, i: nat)
    requires Formed(w) && Enabled(w, step) && Drained(w, i)
    requires Keeps(step, i) && step != UndrainAt(i) && BegunBy(w, step, i) == 0
    ensures var v, j := Apply(w, step), IndexAfter(step, i);
            && Drained(v, j) && v.pool.members[j].metrics.rtt == w.pool.members[i].metrics.rtt
  {
    if Reconfigures(step) {
      ReconfigurationFrame(w, step, i);
      SurvivorKeepsRecord(w, step, IndexAfter(step, i));
      hide Formed, Apply, Enabled, BegunBy;
    } else {
      InPlace(w, step);
      OpenAfter(w, step);
      if Touched(w, step) == i { MarkKept(w, step, i); }
      hide Formed, Apply, Picked;
    }
  }

  predicate NeverUndrains(steps: seq<Step>, i: nat) {
    steps != [] ==> steps[0] != UndrainAt(i) && NeverUndrains(steps[1..], IndexAfter(steps[0], i))
  }

  /** While it gets no new dial, and until it is undrained, a drained backend stays drained. */
  lemma {:induction false} DrainPersists(w: World, steps: seq<Step>, i: nat)
    requires Formed(w) && Possible(w, steps) && w.strategy.HealthWeighted? && Drained(w, i)
    requires StaysAll(steps, i) && NeverUndrains(steps, i) && OutscoredAll(w, steps, i)
    ensures Drained(Run(w, steps), IndexAfterAll(steps, i))
    decreases |steps|
  {
    hide Apply, Enabled, Outscored, Formed;
    if steps == [] {
    } else {
      RunStep(w, steps);
      if steps[0].BeginDial? { PickedIff(w, steps[0], i); }
      DrainedStep(w, steps[0], i);
      StrategyStays(w, steps[0], i);
      hide Drained;
      DrainPersists(Apply(w, steps[0]), steps[1..], IndexAfter(steps[0], i));
    }
  }

  // --------------------------------------------------------- a simple guarantee

  const DRAINED_SCORE := Selection.ERROR_PENALTY_US * U32_MAX

  /** At each pick some member scores below what a drained one does. */
  ghost predicate BetterAtEachPick(w: World, steps: seq<Step>)
    requires Formed(w) && Possible(w, steps)
    decreases |steps|
  {
    steps != [] ==>
      && (steps[0].BeginDial? ==>
           exists j :: 0 <= j < |w.pool.members| && Selection.Score(w.pool.members[j].metrics) < DRAINED_SCORE)
      && (RunStep(w, steps); BetterAtEachPick(Apply(w, steps[0]), steps[1..]))
  }

  lemma DrainedScore(m: TunnelMetrics)
    requires m.recentErrors == U32_MAX && Selection.RttMicros(m.rtt) <= Selection.SAFE_RTT_US
    ensures DRAINED_SCORE <= Selection.Score(m)
  {
    hide Selection.RttMicros;
    assert Selection.ExactScore(m) <= U64_MAX;
  }

  lemma BetterOutscores(w: World, i: nat)
    requires IsDraining(w.pool, i) && Selection.RttMicros(w.pool.members[i].metrics.rtt) <= Selection.SAFE_RTT_US
    requires exists j :: 0 <= j < |w.pool.members| && Selection.Score(w.pool.members[j].metrics) < DRAINED_SCORE
    ensures Outscored(MetricsOf(w.pool), i)
  {
    hide Selection.Score, Selection.RttMicros;
    DrainedScore(w.pool.members[i].metrics);
    var j :| 0 <= j < |w.pool.members| && Selection.Score(w.pool.members[j].metrics) < DRAINED_SCORE;
    assert Selection.Score(MetricsOf(w.pool)[j]) < Selection.Score(MetricsOf(w.pool)[i]);
  }

  /** With an RTT that cannot overflow its score, a drained backend is outscored at each pick at
      which some backend scores below 500000 * (2^32 - 1). */
  lemma {:induction false} BetterSuffices(w: World, steps: seq<Step>, i: nat)
    requires Formed(w) && Possible(w, steps) && w.strategy.HealthWeighted? && Drained(w, i)
    requires Selection.RttMicros(w.pool.members[i].metrics.rtt) <= Selection.SAFE_RTT_US
    requires StaysAll(steps, i) && NeverUndrains(steps, i) && BetterAtEachPick(w, steps)
    ensures OutscoredAll(w, steps, i)
    decreases |steps|
  {
    hide Apply, Enabled, Outscored, Formed, Selection.RttMicros, Selection.Score;
    if steps == [] {
    } else {
      RunStep(w, steps);
      if steps[0].BeginDial? {
        BetterOutscores(w, i);
        PickedIff(w, steps[0], i);
      }
      DrainedStep(w, steps[0], i);
      StrategyStays(w, steps[0], i);
      hide Drained;
      BetterSuffices(Apply(w, steps[0]), steps[1..], IndexAfter(steps[0], i));
    }
  }

  // ------------------------------------------------------------ when it does not

  lemma UnoutscoredIsPicked(w: World, i: nat, draw: nat)
    requires Formed(w) && Exclusive(w) && w.strategy.HealthWeighted? && i < |w.pool.members|
    requires !Outscored(MetricsOf(Drain(w.pool, i)), i)
    ensures var u := Apply(w, DrainAt(i));
            && Formed(u) && i < |u.pool.members| && Picked(u, draw).1 == i
            && TicketAt(u.pool, i) == TicketAt(w.pool, i)
  {
    ApplyFormed(w, DrainAt(i));
    SkippedIff(MetricsOf(Drain(w.pool, i)), i);
    hide Outscored, Formed, Selection.Scores;
  }

  lemma DialledEndsDrain(u: World, i: nat, draw: nat)
    requires Formed(u) && u.pool.members != [] && Picked(u, draw).1 == i
    ensures var v, t := AfterBegin(u, draw), TicketAt(u.pool, i);
            && Formed(v) && t in v.dials && !IsDraining(AfterOk(v, t).pool, i)
  {
    ApplyFormed(u, BeginDial(draw));
    hide WellFormed, Picked, Noted;
  }

  /** Drain, dial, success: a drained backend that nobody outscores is dialled, and the success
      ends its drain. */
  lemma UnoutscoredLosesDrain(w: World, i: nat, draw: nat)
    requires Formed(w) && Exclusive(w) && w.strategy.HealthWeighted? && i < |w.pool.members|
    requires !Outscored(MetricsOf(Drain(w.pool, i)), i)
    ensures var steps := [DrainAt(i), BeginDial(draw), DialOk(TicketAt(w.pool, i))];
            Possible(w, steps) && !IsDraining(Run(w, steps).pool, i)
  {
    hide Outscored, Formed, WellFormed, Picked, Drain, AfterBegin, AfterOk;
    var t, u := TicketAt(w.pool, i), Apply(w, DrainAt(i));
    UnoutscoredIsPicked(w, i, draw);
    DialledEndsDrain(u, i, draw);
    ThreeSteps(w, DrainAt(i), BeginDial(draw), DialOk(t));
  }

  /** A lone backend is never outscored. */
  lemma LoneDrainedIsDialled(seed: TunnelMetrics, draw: nat)
    ensures var w := Start([seed], HealthWeighted);
            var steps := [DrainAt(0), BeginDial(draw), DialOk(TicketAt(w.pool, 0))];
            Formed(w) && Possible(w, steps) && !IsDraining(Run(w, steps).pool, 0)
  {
    UnoutscoredLosesDrain(Start([seed], HealthWeighted), 0, draw);
    hide Possible, Run;
  }
}
