/** Recent errors over whole runs, and what they do to health-weighted selection. */
module FailureCounts {
  import opened Machine
  import opened Metrics
  import opened Pools
  import opened Runs
  import opened Strategies
  import Selection

  /** What a step sets member `i`'s recent errors to, if it sets them: a success clears them, a
      drain puts them at the maximum, and an undrain clears a maximum. */
  ghost function ResetBy(w: World, step: Step, i: nat): Option<U32> {
    match step
    case DialOk(t) => if t.index == i then Some(0) else None
    case CancelDial(t, cleared) => if t.index == i && cleared then Some(0) else None
    case DrainAt(k) => if k == i then Some(0xFFFF_FFFF) else None
    case UndrainAt(k) =>
      if k == i && i < |w.pool.members| && w.pool.members[i].metrics.recentErrors == 0xFFFF_FFFF then Some(0) else None
    case _ => None
  }

  predicate FailsOn(step: Step, i: nat) { step.DialErr? && step.t.index == i }

  /** What a step makes of member `i`'s recent errors. */
  ghost function ErrorsAfter(w: World, step: Step, i: nat): U32
    requires i < |w.pool.members|
  {
    var was := w.pool.members[i].metrics.recentErrors;
    if ResetBy(w, step, i).Some? then ResetBy(w, step, i).value
    else if FailsOn(step, i) then Min(0xFFFF_FFFF, was + 1)
    else was
  }

  lemma BeginErrors(w: World, draw: nat)
    requires Formed(w) && w.pool.members != []
    ensures var v, i := AfterBegin(w, draw), Picked(w, draw).1;
            && |v.pool.members| == |w.pool.members|
            && v.pool.members[i].metrics.recentErrors == w.pool.members[i].metrics.recentErrors
  {
    hide WellFormed, Picked, Noted;
  }

  lemma EndErrors(w: World, t: Ticket, cleared: bool)
    requires Formed(w) && t in w.dials
    ensures var was := w.pool.members[t.index].metrics.recentErrors;
            var ok, err, cancel := AfterOk(w, t), AfterErr(w, t), AfterCancel(w, t, cleared);
            && |ok.pool.members| == |err.pool.members| == |cancel.pool.members| == |w.pool.members|
            && ok.pool.members[t.index].metrics.recentErrors == 0
            && err.pool.members[t.index].metrics.recentErrors == Min(0xFFFF_FFFF, was + 1)
            && cancel.pool.members[t.index].metrics.recentErrors == if cleared then 0 else was
  {
    hide WellFormed, Noted;
  }

  lemma WriteErrors(w: World, d: Pending, lockFree: bool)
    requires Formed(w) && d.index < |w.pool.members|
    ensures var v := AfterWrite(w, d, lockFree);
            && |v.pool.members| == |w.pool.members|
            && v.pool.members[d.index].metrics.recentErrors == w.pool.members[d.index].metrics.recentErrors
  {
    hide WellFormed, Noted, Holds;
  }

  lemma TouchedErrors(w: World, step: Step)
    requires Formed(w) && Enabled(w, step) && !Reconfigures(step) && Touched(w, step) < |w.pool.members|
    ensures |Apply(w, step).pool.members| == |w.pool.members|
    ensures var i := Touched(w, step); Apply(w, step).pool.members[i].metrics.recentErrors == ErrorsAfter(w, step, i)
  {
    hide WellFormed, Picked, AfterBegin, AfterOk, AfterErr, AfterCancel, AfterCheck, AfterWrite;
    match step
    case BeginDial(draw) => BeginErrors(w, draw);
    case DialOk(t) => EndErrors(w, t, false);
    case DialErr(t) => EndErrors(w, t, false);
    case CancelDial(t, cleared) => EndErrors(w, t, cleared);
    case GuardWrite(d, lockFree) => WriteErrors(w, d, lockFree);
    case _ =>
  }

  lemma UntouchedErrors(w: World, step: Step, i: nat)
    requires Formed(w) && Enabled(w, step) && i < |w.pool.members|
    requires Reconfigures(step) || Touched(w, step) != i
    ensures ErrorsAfter(w, step, i) == w.pool.members[i].metrics.recentErrors
  {
    hide Formed, Enabled, Picked;
  }

  lemma ErrorsStep(w: World, step: Step, i: nat)
    requires Formed(w) && Enabled(w, step) && i < |w.pool.members| && Keeps(step, i)
    ensures var v, j := Apply(w, step), IndexAfter(step, i);
            j < |v.pool.members| && v.pool.members[j].metrics.recentErrors == ErrorsAfter(w, step, i)
  {
    hide Apply, Formed, Enabled, Touched, ErrorsAfter;
    if Reconfigures(step) {
      ReconfigurationFrame(w, step, i);
      SurvivorKeepsRecord(w, step, IndexAfter(step, i));
      UntouchedErrors(w, step, i);
    } else {
      InPlace(w, step);
      if i == Touched(w, step) {
        TouchedErrors(w, step);
      } else {
        UntouchedErrors(w, step, i);
      }
    }
  }

  /** What the last success, drain or undrain of the run set, if there was one. */
  ghost function LastReset(w: World, steps: seq<Step>, i: nat): Option<U32>
    requires Formed(w) && Possible(w, steps)
    decreases |steps|
  {
    if steps == [] then None
    else
      RunStep(w, steps);
      var later := LastReset(Apply(w, steps[0]), steps[1..], IndexAfter(steps[0], i));
      if later.Some? then later else ResetBy(w, steps[0], i)
  }

  /** The failed dials since then. */
  ghost function FailedSince(w: World, steps: seq<Step>, i: nat): nat
    requires Formed(w) && Possible(w, steps)
    decreases |steps|
  {
    if steps == [] then 0
    else
      RunStep(w, steps);
      var v, j := Apply(w, steps[0]), IndexAfter(steps[0], i);
      FailedSince(v, steps[1..], j) +
      if LastReset(v, steps[1..], j).None? && FailsOn(steps[0], i) then 1 else 0
  }

  /** Over every run that keeps a backend its recent errors are what the last success, drain or
      undrain set, or what they started as, plus its failed dials since, up to saturation. */
  lemma {:induction false} RecentErrorsOverRun(w: World, steps: seq<Step>, i: nat)
    requires Formed(w) && Possible(w, steps) && i < |w.pool.members| && KeepsAll(steps, i)
    ensures var v, j := Run(w, steps), IndexAfterAll(steps, i);
            && j < |v.pool.members|
            && var last := LastReset(w, steps, i);
               var base := if last.Some? then last.value else w.pool.members[i].metrics.recentErrors;
               v.pool.members[j].metrics.recentErrors == Min(0xFFFF_FFFF, base + FailedSince(w, steps, i))
    decreases |steps|
  {
    hide Apply, Enabled;
    if steps == [] {
    } else {
      RunStep(w, steps);
      ErrorsStep(w, steps[0], i);
      hide Formed;
      RecentErrorsOverRun(Apply(w, steps[0]), steps[1..], IndexAfter(steps[0], i));
    }
  }

  // -------------------------------------------------------------------- reports

  /** The dials of the run that fail on index `i`. */
  function FailedOn(steps: seq<Step>, i: nat): nat {
    if steps == [] then 0 else (if FailsOn(steps[0], i) then 1 else 0) + FailedOn(steps[1..], i)
  }

  /** The errors on index `i` that the run reports to the strategy or drops. */
  function SettledOn(steps: seq<Step>, i: nat): nat {
    if steps == [] then 0
    else (if steps[0] == ReportErr(i) || steps[0] == CancelReport(i) then 1 else 0) + SettledOn(steps[1..], i)
  }

  lemma ReportsStep(w: World, step: Step, i: nat)
    requires Formed(w) && Enabled(w, step)
    ensures Apply(w, step).reports[i] + SettledOn([step], i) == w.reports[i] + FailedOn([step], i)
  {
    hide Apply, Formed;
    OpenAfter(w, step);
  }

  /** Over every run each failed dial is reported or dropped at most once: what is outstanding at
      the end is what was, plus the failures, less the reports and the dropped ones. */
  lemma {:induction false} ReportsConserved(w: World, steps: seq<Step>, i: nat)
    requires Formed(w) && Possible(w, steps)
    ensures Run(w, steps).reports[i] + SettledOn(steps, i) == w.reports[i] + FailedOn(steps, i)
    decreases |steps|
  {
    hide Apply, Enabled, Formed;
    if steps == [] {
    } else {
      RunStep(w, steps);
      ReportsStep(w, steps[0], i);
      assert [steps[0]][1..] == [];
      ReportsConserved(Apply(w, steps[0]), steps[1..], i);
    }
  }

  // ------------------------------------------------------------ leaving a failing backend

  lemma BegunThenFailed(w: World, draw: nat)
    requires Formed(w) && w.pool.members != []
    requires w.pool.members[Picked(w, draw).1].metrics.activeConnections < U32_MAX
    ensures var (s, i) := Picked(w, draw);
            var t, m, u := TicketAt(w.pool, i), w.pool.members[i].metrics, AfterBegin(w, draw);
            && Formed(u) && t in u.dials
            && var v := AfterErr(u, t);
               && |v.pool.members| == |w.pool.members| && v.strategy == s
               && (forall k :: 0 <= k < |w.pool.members| && k != i ==> v.pool.members[k] == w.pool.members[k])
               && var m' := v.pool.members[i].metrics;
                  && m' == m.(recentErrors := m'.recentErrors, totalDials := m'.totalDials, totalErrors := m'.totalErrors)
                  && m'.recentErrors == Min(0xFFFF_FFFF, m.recentErrors + 1)
  {
    ApplyFormed(w, BeginDial(draw));
    hide WellFormed, Picked, Noted;
  }

  lemma FailedDialMetrics(w: World, draw: nat)
    requires Formed(w) && w.pool.members != []
    requires w.pool.members[Picked(w, draw).1].metrics.activeConnections < U32_MAX
    ensures var (s, i) := Picked(w, draw);
            var m, steps := w.pool.members[i].metrics, [BeginDial(draw), DialErr(TicketAt(w.pool, i))];
            && Possible(w, steps)
            && var v := Run(w, steps);
               && |v.pool.members| == |w.pool.members| && v.strategy == s
               && (forall k :: 0 <= k < |w.pool.members| && k != i ==> v.pool.members[k] == w.pool.members[k])
               && var m' := v.pool.members[i].metrics;
                  && m' == m.(recentErrors := m'.recentErrors, totalDials := m'.totalDials, totalErrors := m'.totalErrors)
                  && m'.recentErrors == Min(0xFFFF_FFFF, m.recentErrors + 1)
  {
    BegunThenFailed(w, draw);
    var t, u := TicketAt(w.pool, Picked(w, draw).1), AfterBegin(w, draw);
    hide AfterBegin, AfterErr, Picked;
    ApplyFormed(u, DialErr(t));
    TwoSteps(w, BeginDial(draw), DialErr(t));
    hide Possible, Run, Formed;
  }

  /** Some other backend is less than half a second worse than `i`, or just that and further left. */
  predicate Rivalled(metrics: seq<TunnelMetrics>, i: nat)
    requires i < |metrics|
  {
    exists k :: 0 <= k < |metrics| && k != i
      && var worse := Selection.WorseBy(metrics[k], metrics[i]); worse < 500_000 || (k < i && worse == 500_000)
  }

  /** One more recent error moves the pick off a backend exactly when it is rivalled. */
  lemma OneErrorMovesIff(ms: seq<TunnelMetrics>, ms': seq<TunnelMetrics>, i: nat)
    requires i < |ms| == |ms'| && forall k :: 0 <= k < |ms| && k != i ==> ms'[k] == ms[k]
    requires forall k :: 0 <= k < |ms| ==> Selection.ExactScore(ms[k]) <= U64_MAX - 500_000
    requires ms'[i] == ms[i].(recentErrors := ms'[i].recentErrors, totalDials := ms'[i].totalDials,
                              totalErrors := ms'[i].totalErrors)
    requires ms'[i].recentErrors == ms[i].recentErrors + 1
    ensures Selection.ArgMin(Selection.Scores(ms')) != i <==> Rivalled(ms, i)
  {
    hide Selection.RttMicros;
    forall k | 0 <= k < |ms|
      ensures Selection.ExactScore(ms'[k]) <= U64_MAX
      ensures Selection.WorseBy(ms'[i], ms'[k]) == if k == i then 0 else 500_000 - Selection.WorseBy(ms[k], ms[i])
    {
      if k != i { assert ms'[k] == ms[k]; }
    }
    hide Selection.ExactScore, Selection.WorseBy;
    Selection.HealthWeightedPicksIff(ms', i);
  }

  lemma HealthPick(w: World, draw: nat)
    requires Formed(w) && w.strategy.HealthWeighted? && w.pool.members != []
    ensures Picked(w, draw) == (HealthWeighted, Selection.ArgMin(Selection.Scores(MetricsOf(w.pool))))
  {}

  /** After a dial that fails, while no score overflows, health-weighted selection leaves the
      backend exactly when it is rivalled. */
  lemma FailureMovesPickIff(w: World, draw: nat, draw': nat)
    requires Formed(w) && w.strategy.HealthWeighted? && w.pool.members != []
    requires forall k :: 0 <= k < |w.pool.members| ==>
               Selection.ExactScore(w.pool.members[k].metrics) <= U64_MAX - 500_000
    requires w.pool.members[Picked(w, draw).1].metrics.activeConnections < U32_MAX
    requires w.pool.members[Picked(w, draw).1].metrics.recentErrors < U32_MAX
    ensures var i := Picked(w, draw).1;
            var steps := [BeginDial(draw), DialErr(TicketAt(w.pool, i))];
            && Possible(w, steps)
            && var v := Run(w, steps);
               v.pool.members != [] && (Picked(v, draw').1 != i <==> Rivalled(MetricsOf(w.pool), i))
  {
    HealthPick(w, draw);
    hide Selection.ExactScore, Rivalled, Possible, Run, Picked, Selection.Scores;
    var i := Picked(w, draw).1;
    FailedDialMetrics(w, draw);
    var v := Run(w, [BeginDial(draw), DialErr(TicketAt(w.pool, i))]);
    HealthPick(v, draw');
    hide Formed;
    OneErrorMovesIff(MetricsOf(w.pool), MetricsOf(v.pool), i);
  }
}
