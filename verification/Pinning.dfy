/** Which changes of the pool leave a sticky pick on the backend it was pinned to. */
module Pinning {
  import opened Identity
  import opened Machine
  import opened Metrics
  import opened Pools
  import opened Runs
  import opened Strategies

  /** Sticky is pinned, and every pick would go to backend `x`. */
  ghost predicate PinnedTo(w: World, x: nat) {
    && w.strategy.Sticky? && w.strategy.pinned.Some? && w.pool.members != []
    && w.pool.members[Spot(w)].backend == x
  }

  /** The pinned index, clamped to the pool. */
  function Spot(w: World): nat
    requires w.strategy.Sticky? && w.strategy.pinned.Some? && w.pool.members != []
  {
    Min(w.strategy.pinned.value, |w.pool.members| - 1)
  }

  /** That is what a pick does, pinning first if it has to. */
  lemma PickIsPinned(w: World, draw: nat)
    requires Formed(w) && w.strategy.Sticky? && w.pool.members != []
    ensures var v, i := Apply(w, BeginDial(draw)), Picked(w, draw).1;
            && PinnedTo(v, w.pool.members[i].backend)
            && (w.strategy.pinned.Some? ==> i == Spot(w) && v.strategy == w.strategy)
  {
    BeginInPlace(w, draw);
  }

  /** When a step leaves the pick where it is. An addition, when the pinned index is still inside
      the pool; a removal, when it is of another member, and either of a later one or the pick
      is on the last. */
  ghost predicate KeepsPin(w: World, step: Step)
    requires w.strategy.Sticky? && w.strategy.pinned.Some? && w.pool.members != []
  {
    var n, spot := |w.pool.members|, Spot(w);
    match step
    case AddOne(_) => w.strategy.pinned.value < n
    case RemoveAt(k) => k < n ==> spot != k && (spot < k || spot == n - 1)
    case ReplaceAll(m, _) => m == 0
    case _ => true
  }

  lemma AdditionKeepsPinIff(w: World, id: Option<string>, x: nat)
    requires Formed(w) && Distinct(w) && PinnedTo(w, x)
    ensures PinnedTo(AfterAdd(w, id), x) <==> w.strategy.pinned.value < |w.pool.members|
  {
    hide WellFormed;
  }

  lemma RemovalKeepsPinIff(w: World, k: nat, x: nat)
    requires Formed(w) && Distinct(w) && PinnedTo(w, x) && k < |w.pool.members|
    ensures PinnedTo(AfterRemove(w, k), x)
            <==> Spot(w) != k && (Spot(w) < k || Spot(w) == |w.pool.members| - 1)
  {
    hide WellFormed, Stranded;
    var v, n, spot := AfterRemove(w, k), |w.pool.members|, Spot(w);
    if n > 1 {
      var j := Min(w.strategy.pinned.value, n - 2);
      RemovalKeepsRecord(w, k, j);
      assert v.pool.members[j].backend == w.pool.members[Past(k, j)].backend;
      assert v.pool.members[j].backend == x <==> Past(k, j) == spot;
    }
  }

  lemma StrategyKept(w: World, step: Step)
    requires Formed(w) && Enabled(w, step) && !Reconfigures(step) && !step.SetStrategy?
    requires w.strategy.Sticky? && w.strategy.pinned.Some?
    ensures Apply(w, step).strategy == w.strategy
  {
    hide Noted, Holds, Begin, Succeed, Fail, Release, Drain, Undrain;
  }

  lemma PinStepIff(w: World, step: Step, x: nat)
    requires Formed(w) && Enabled(w, step) && !step.SetStrategy? && Distinct(w) && PinnedTo(w, x)
    ensures PinnedTo(Apply(w, step), x) <==> KeepsPin(w, step)
  {
    hide Formed, Distinct, Touched, AfterAdd, AfterReplace;
    match step
    case AddOne(id) => AdditionKeepsPinIff(w, id, x);
    case RemoveAt(k) => if k < |w.pool.members| { RemovalKeepsPinIff(w, k, x); }
    case ReplaceAll(n, s) => ReplacementUnpins(w, n, s, x);
    case _ =>
      StrategyKept(w, step);
      InPlace(w, step);
      hide Apply, Enabled;
  }

  lemma ReplacementUnpins(w: World, n: nat, s: Option<Strategy>, x: nat)
    requires Formed(w) && Distinct(w) && PinnedTo(w, x)
    ensures PinnedTo(AfterReplace(w, n, s), x) <==> n == 0
  {
    hide WellFormed;
    var v := AfterReplace(w, n, s);
    if n > 0 { assert forall k :: 0 <= k < n ==> v.pool.members[k].backend > x; }
  }

  ghost predicate PinnedThroughout(w: World, steps: seq<Step>, x: nat)
    requires Formed(w) && Possible(w, steps)
    decreases |steps|
  {
    PinnedTo(w, x) && (steps == [] || (RunStep(w, steps); PinnedThroughout(Apply(w, steps[0]), steps[1..], x)))
  }

  ghost predicate KeepsPinAll(w: World, steps: seq<Step>)
    requires Formed(w) && Possible(w, steps)
    decreases |steps|
  {
    steps == [] ||
    (&& w.strategy.Sticky? && w.strategy.pinned.Some? && w.pool.members != [] && KeepsPin(w, steps[0])
     && (RunStep(w, steps); KeepsPinAll(Apply(w, steps[0]), steps[1..])))
  }

  /** Over every run that keeps the strategy object, every pick goes to the pinned backend exactly
      when each addition, removal and replacement leaves the pick where it is. */
  lemma {:induction false} PinHoldsIff(w: World, steps: seq<Step>, x: nat)
    requires Formed(w) && Possible(w, steps) && Distinct(w) && PinnedTo(w, x)
    requires forall i :: 0 <= i < |steps| ==> !steps[i].SetStrategy?
    ensures PinnedThroughout(w, steps, x) <==> KeepsPinAll(w, steps)
    decreases |steps|
  {
    hide Apply, Enabled, Formed, KeepsPin, Distinct;
    if steps == [] {
    } else {
      RunStep(w, steps);
      PinStepIff(w, steps[0], x);
      DistinctStep(w, steps[0]);
      var v := Apply(w, steps[0]);
      if PinnedTo(v, x) {
        PinHoldsIff(v, steps[1..], x);
      } else {
        assert !PinnedThroughout(v, steps[1..], x);
      }
    }
  }

  /** A pick can leave its backend without that backend being touched: with the last member pinned,
      removing an earlier one clamps the index, and the next addition takes the pick. */
  lemma AdditionTakesPick(w: World, x: nat, k: nat, id: Option<string>)
    requires Formed(w) && Exclusive(w) && Distinct(w) && PinnedTo(w, x)
    requires k < w.strategy.pinned.value == |w.pool.members| - 1
    ensures var v := AfterRemove(w, k);
            Formed(v) && Exclusive(v) && PinnedTo(v, x) && !PinnedTo(AfterAdd(v, id), x)
  {
    var v := AfterRemove(w, k);
    ApplyFormed(w, RemoveAt(k));
    DistinctStep(w, RemoveAt(k));
    RemovalKeepsPinIff(w, k, x);
    hide Formed, Distinct, Stranded;
    AdditionKeepsPinIff(v, id, x);
  }
}
