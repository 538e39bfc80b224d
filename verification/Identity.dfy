/** Guard identity: a guard that would pass its check names the backend it was dialled on. It
    needs neither exact counters nor well-timed drops. */
module Identity {
  import opened Machine
  import opened Metrics
  import opened Pools
  import opened Runs
  import opened Strategies

  ghost predicate DialsCurrent(w: World) { forall t :: t in w.dials ==> Current(w, t) }

  ghost predicate Identified(w: World) {
    DialsCurrent(w) && forall t :: t in w.guards && t.gen == w.pool.generation ==> Names(w.pool, t)
  }

  /** Members are different backends, and whatever is open is on a backend seen so far. */
  ghost predicate Known(w: World) {
    && Distinct(w)
    && (forall t :: t in w.guards ==> t.backend < w.nextBackend)
    && (forall d :: d in w.drops ==> d.backend < w.nextBackend)
  }

  // -------------------------------------------------------------- single steps

  predicate Bumps(w: World, step: Step) {
    (step.RemoveAt? && step.i < |w.pool.members|) || (step.ReplaceAll? && step.n > 0)
  }

  lemma GenerationStep(w: World, step: Step)
    requires Formed(w) && Enabled(w, step)
    ensures Apply(w, step).pool.generation == if Bumps(w, step) then IncWrap64(w.pool.generation) else w.pool.generation
  {
    if Reconfigures(step) {
      hide WellFormed, Stranded, AfterBegin, AfterOk, AfterErr, AfterCancel, AfterCheck, AfterWrite;
    } else {
      InPlace(w, step);
      hide Formed, Apply, Enabled, Touched;
    }
  }

  /** Every guard was a guard or a dial before; every pending decrement was one, or a guard. */
  lemma OpenStep(w: World, step: Step)
    requires Formed(w) && Enabled(w, step)
    ensures forall t :: t in GuardsAfter(w, step) ==> t in w.guards || t in w.dials
    ensures forall d :: d in DropsAfter(w, step) ==>
              d in w.drops || (step.GuardCheck? && step.t in w.guards && d == Pending(step.t.index, step.t.backend))
  {
    hide Formed, Apply;
  }

  lemma DialsCurrentStep(w: World, step: Step)
    requires Formed(w) && Enabled(w, step) && DialsCurrent(w)
    ensures DialsCurrent(Apply(w, step))
  {
    hide Formed, Apply, Enabled, Touched;
    var v := Apply(w, step);
    if Reconfigures(step) {
      DialsFormed(w, step);
    } else {
      InPlace(w, step);
      OpenAfter(w, step);
      forall t | t in v.dials ensures Current(v, t) {
        if t in w.dials { assert Current(w, t); } else { assert step.BeginDial?; }
      }
    }
  }

  lemma DistinctAcross(w: World, step: Step)
    requires Formed(w) && Enabled(w, step) && Reconfigures(step) && Distinct(w)
    ensures Distinct(Apply(w, step)) && w.nextBackend <= Apply(w, step).nextBackend
  {
    hide WellFormed, Stranded, AfterBegin, AfterOk, AfterErr, AfterCancel, AfterCheck, AfterWrite;
  }

  lemma DistinctStep(w: World, step: Step)
    requires Formed(w) && Enabled(w, step) && Distinct(w)
    ensures Distinct(Apply(w, step)) && w.nextBackend <= Apply(w, step).nextBackend
  {
    hide Formed, Apply, Enabled, Touched;
    if Reconfigures(step) {
      DistinctAcross(w, step);
    } else {
      InPlace(w, step);
    }
  }

  lemma KnownStep(w: World, step: Step)
    requires Formed(w) && Enabled(w, step) && DialsCurrent(w) && Known(w)
    ensures Known(Apply(w, step))
  {
    hide Formed, Apply, Enabled;
    OpenAfter(w, step);
    OpenStep(w, step);
    DistinctStep(w, step);
    var v := Apply(w, step);
    forall t | t in v.guards ensures t.backend < v.nextBackend {
      if t in w.dials { assert Current(w, t); }
    }
  }

  /** No stale guard that the step brings back to life is on another backend than it names. */
  ghost predicate RevivesOnlyOwn(w: World, step: Step) {
    match step
    case RemoveAt(i) => i < |w.pool.members| ==> forall t :: t in w.guards && t.gen == IncWrap64(w.pool.generation) ==>
      Holds(w.pool, Past(i, t.index), t.backend)
    case ReplaceAll(n, _) => n > 0 ==> NextGenerationFree(w)
    case _ => true
  }

  lemma RemovalNames(p: Pool, i: nat, t: Ticket)
    requires i < |p.members|
    ensures Names(Remove(p, i), t) <==> Holds(p, Past(i, t.index), t.backend)
  {}

  lemma ReplacementNames(p: Pool, next: nat, n: nat, t: Ticket)
    requires t.backend < next
    ensures n > 0 ==> !Names(Replace(p, seq(n, k => next + k)), t)
  {}

  lemma AdditionNames(p: Pool, backend: nat, id: Option<string>, t: Ticket)
    requires Names(p, t)
    ensures Names(Add(p, backend, id), t)
  {}

  lemma PoolAcross(w: World, step: Step)
    requires Formed(w) && Enabled(w, step) && Reconfigures(step)
    ensures Apply(w, step).pool
         == match step
            case AddOne(id) => Add(w.pool, w.nextBackend, id)
            case RemoveAt(i) => Remove(w.pool, i)
            case ReplaceAll(n, _) => Replace(w.pool, seq(n, k => w.nextBackend + k))
            case _ => w.pool
    ensures Apply(w, step).pool.generation == if Bumps(w, step) then IncWrap64(w.pool.generation) else w.pool.generation
  {
    GenerationStep(w, step);
    hide WellFormed, Stranded, AfterBegin, AfterOk, AfterErr, AfterCancel, AfterCheck, AfterWrite;
  }

  lemma IdentityAcross(w: World, step: Step)
    requires Formed(w) && Enabled(w, step) && Identified(w) && Known(w) && Reconfigures(step)
    ensures Identified(Apply(w, step)) <==> RevivesOnlyOwn(w, step)
  {
    DialsCurrentStep(w, step);
    OpenAfter(w, step);
    PoolAcross(w, step);
    hide Apply, Formed, Distinct, DialsCurrent, Add, Remove, Replace;
    forall t | t in w.guards && t.gen == w.pool.generation ensures step.AddOne? ==> Names(Apply(w, step).pool, t) {
      if step.AddOne? { AdditionNames(w.pool, w.nextBackend, step.id, t); }
    }
    forall t | t in w.guards
      ensures step.RemoveAt? && step.i < |w.pool.members| ==>
                (Names(Apply(w, step).pool, t) <==> Holds(w.pool, Past(step.i, t.index), t.backend))
      ensures step.ReplaceAll? && step.n > 0 ==> !Names(Apply(w, step).pool, t)
    {
      if step.RemoveAt? && step.i < |w.pool.members| { RemovalNames(w.pool, step.i, t); }
      if step.ReplaceAll? { ReplacementNames(w.pool, w.nextBackend, step.n, t); }
    }
  }

  lemma IdentityStepIff(w: World, step: Step)
    requires Formed(w) && Enabled(w, step) && Identified(w) && Known(w)
    ensures Identified(Apply(w, step)) <==> RevivesOnlyOwn(w, step)
  {
    if Reconfigures(step) {
      IdentityAcross(w, step);
    } else {
      DialsCurrentStep(w, step);
      OpenAfter(w, step);
      OpenStep(w, step);
      InPlace(w, step);
      hide Formed, Apply, Enabled, Touched;
      var v := Apply(w, step);
      forall t | t in v.guards && t.gen == v.pool.generation ensures Names(v.pool, t) {
        if t in w.dials { assert Current(w, t); }
      }
    }
  }

  // ---------------------------------------------------------------------- runs

  ghost predicate RevivesOnlyOwnAll(w: World, steps: seq<Step>)
    requires Formed(w) && Possible(w, steps)
    decreases |steps|
  {
    steps == [] ||
    (RunStep(w, steps); RevivesOnlyOwn(w, steps[0]) && RevivesOnlyOwnAll(Apply(w, steps[0]), steps[1..]))
  }

  ghost predicate IdentifiedThroughout(w: World, steps: seq<Step>)
    requires Formed(w) && Possible(w, steps)
    decreases |steps|
  {
    Identified(w) &&
    (steps == [] || (RunStep(w, steps); IdentifiedThroughout(Apply(w, steps[0]), steps[1..])))
  }

  /** Over every run the code can make, guard identity holds in every world exactly when no
      bump of the generation revives a stale guard on another backend's index. */
  lemma {:induction false} IdentityIff(w: World, steps: seq<Step>)
    requires Formed(w) && Possible(w, steps) && Identified(w) && Known(w)
    ensures IdentifiedThroughout(w, steps) <==> RevivesOnlyOwnAll(w, steps)
    ensures RevivesOnlyOwnAll(w, steps) ==> Identified(Run(w, steps))
    decreases |steps|
  {
    hide Apply, Enabled, Formed, Known, DialsCurrent, RevivesOnlyOwn;
    if steps == [] {
    } else {
      RunStep(w, steps);
      IdentityStepIff(w, steps[0]);
      KnownStep(w, steps[0]);
      if Identified(Apply(w, steps[0])) { IdentityIff(Apply(w, steps[0]), steps[1..]); }
    }
  }

  /** How many times a run may bump the generation. */
  function Removals(steps: seq<Step>): nat {
    if steps == [] then 0
    else (if steps[0].RemoveAt? || steps[0].ReplaceAll? then 1 else 0) + Removals(steps[1..])
  }

  ghost predicate StampedBefore(w: World) { forall t :: t in w.guards ==> t.gen <= w.pool.generation }

  lemma StampStep(w: World, step: Step)
    requires Formed(w) && Enabled(w, step) && DialsCurrent(w) && StampedBefore(w)
    requires Bumps(w, step) ==> w.pool.generation < U64_MAX
    ensures RevivesOnlyOwn(w, step) && StampedBefore(Apply(w, step))
  {
    GenerationStep(w, step);
    OpenAfter(w, step);
    OpenStep(w, step);
    hide Formed, Apply, Enabled;
  }

  lemma {:induction false} FewRemovalsRevive(w: World, steps: seq<Step>)
    requires Formed(w) && Possible(w, steps) && DialsCurrent(w) && StampedBefore(w)
    requires w.pool.generation + Removals(steps) <= U64_MAX
    ensures RevivesOnlyOwnAll(w, steps)
    decreases |steps|
  {
    hide Apply, Enabled, Formed, DialsCurrent, StampedBefore, RevivesOnlyOwn;
    if steps == [] {
    } else {
      RunStep(w, steps);
      DialsCurrentStep(w, steps[0]);
      GenerationStep(w, steps[0]);
      StampStep(w, steps[0]);
      FewRemovalsRevive(Apply(w, steps[0]), steps[1..]);
    }
  }

  /** So from construction on, whatever is dialled, dropped, cancelled, reported, drained, added,
      removed or replaced in whatever order, a guard that passes its check names its own backend,
      as long as there are fewer than 2^64 removals and replacements. */
  lemma GuardsNameTheirBackend(seeds: seq<TunnelMetrics>, strategy: Strategy, steps: seq<Step>, t: Ticket)
    requires WellFormed(strategy)
    ensures Formed(Start(seeds, strategy))
    ensures Possible(Start(seeds, strategy), steps) && Removals(steps) <= U64_MAX ==>
              var v := Run(Start(seeds, strategy), steps);
              t in v.guards && t.gen == v.pool.generation ==> Names(v.pool, t)
  {
    var w := Start(seeds, strategy);
    assert Identified(w) && Known(w) && StampedBefore(w) && w.pool.generation == 0;
    hide Start, Possible, Run, Formed;
    if Possible(w, steps) && Removals(steps) <= U64_MAX {
      FewRemovalsRevive(w, steps);
      IdentityIff(w, steps);
    }
  }
}
