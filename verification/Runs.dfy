/** Runs of the machine: what every run keeps, and what each step may touch. */
module Runs {
  import opened Machine
  import opened Metrics
  import opened Pools
  import opened Strategies

  /** The world right after construction, with seeded metrics. */
  ghost function Start(seeds: seq<TunnelMetrics>, strategy: Strategy): World {
    World(Pool(seq(|seeds|, k requires 0 <= k < |seeds| => Member(k, None, seeds[k])), 0), strategy,
          multiset{}, multiset{}, multiset{}, multiset{},
          seq(|seeds|, k requires 0 <= k < |seeds| => Account(seeds[k], BLANK)), |seeds|)
  }

  lemma StartIsGood(seeds: seq<TunnelMetrics>, strategy: Strategy)
    requires WellFormed(strategy)
    ensures Good(Start(seeds, strategy))
  {
    hide Conserved;
    var w := Start(seeds, strategy);
    forall k | 0 <= k < |w.pool.members| ensures ConservedAt(w, k) { ConservedFresh(w.accounts[k]); }
  }

  // ----------------------------------------------------------- in-place steps

  predicate Reconfigures(step: Step) { step.AddOne? || step.RemoveAt? || step.ReplaceAll? }

  /** The one member whose metrics or account a step may change, if any. */
  ghost function Touched(w: World, step: Step): nat
    requires Formed(w) && Enabled(w, step)
  {
    match step
    case BeginDial(draw) => Picked(w, draw).1
    case DialOk(t) => t.index
    case DialErr(t) => t.index
    case CancelDial(t, _) => t.index
    case GuardWrite(d, _) => d.index
    case DrainAt(i) => i
    case UndrainAt(i) => i
    case _ => |w.pool.members|
  }

  /** Only member `i` differs, and it is still the same backend with the same seed. */
  ghost predicate OnlyTouches(w: World, v: World, i: nat) {
    && v.nextBackend == w.nextBackend && v.pool.generation == w.pool.generation
    && |v.pool.members| == |w.pool.members| == |w.accounts| == |v.accounts|
    && (forall k :: 0 <= k < |w.pool.members| && k != i ==>
         v.pool.members[k] == w.pool.members[k] && v.accounts[k] == w.accounts[k])
    && (i < |w.pool.members| ==>
         && v.pool.members[i].backend == w.pool.members[i].backend
         && v.pool.members[i].metrics.rtt == w.pool.members[i].metrics.rtt
         && v.accounts[i].seed == w.accounts[i].seed)
  }

  lemma InPlace(w: World, step: Step)
    requires Formed(w) && Enabled(w, step) && !Reconfigures(step)
    ensures OnlyTouches(w, Apply(w, step), Touched(w, step))
  {
    match step
    case BeginDial(draw) => BeginInPlace(w, draw);
    case DialOk(t) => EndInPlace(w, t, false);
    case DialErr(t) => EndInPlace(w, t, false);
    case CancelDial(t, cleared) => EndInPlace(w, t, cleared);
    case GuardWrite(d, lockFree) => WriteInPlace(w, d, lockFree);
    case _ =>
  }

  lemma BeginInPlace(w: World, draw: nat)
    requires Formed(w) && w.pool.members != []
    ensures OnlyTouches(w, AfterBegin(w, draw), Picked(w, draw).1)
  {
    hide Picked, WellFormed;
  }

  lemma EndInPlace(w: World, t: Ticket, cleared: bool)
    requires Formed(w) && t in w.dials
    ensures OnlyTouches(w, AfterOk(w, t), t.index)
    ensures OnlyTouches(w, AfterErr(w, t), t.index)
    ensures OnlyTouches(w, AfterCancel(w, t, cleared), t.index)
  {
    hide WellFormed;
  }

  lemma WriteInPlace(w: World, d: Pending, lockFree: bool)
    requires Formed(w)
    ensures OnlyTouches(w, AfterWrite(w, d, lockFree), d.index)
  {
    hide WellFormed;
  }

  // ------------------------------------------------------- what is open, by step

  ghost function DialsAfter(w: World, step: Step): multiset<Ticket>
    requires Formed(w) && Enabled(w, step)
  {
    match step
    case BeginDial(draw) => w.dials + multiset{TicketAt(w.pool, Picked(w, draw).1)}
    case DialOk(t) => w.dials - multiset{t}
    case DialErr(t) => w.dials - multiset{t}
    case CancelDial(t, _) => w.dials - multiset{t}
    case _ => w.dials
  }

  ghost function GuardsAfter(w: World, step: Step): multiset<Ticket> {
    match step
    case DialOk(t) => w.guards + multiset{t}
    case GuardCheck(t) => w.guards - multiset{t}
    case _ => w.guards
  }

  ghost function DropsAfter(w: World, step: Step): multiset<Pending> {
    match step
    case GuardCheck(t) =>
      if t.gen == w.pool.generation then w.drops + multiset{Pending(t.index, t.backend)} else w.drops
    case GuardWrite(d, _) => w.drops - multiset{d}
    case _ => w.drops
  }

  ghost function ReportsAfter(w: World, step: Step): multiset<nat> {
    match step
    case DialErr(t) => w.reports + multiset{t.index}
    case ReportErr(idx) => w.reports - multiset{idx}
    case CancelReport(idx) => w.reports - multiset{idx}
    case _ => w.reports
  }

  ghost predicate SameOpen(w: World, v: World) {
    v.dials == w.dials && v.guards == w.guards && v.drops == w.drops && v.reports == w.reports
  }

  lemma AddOpensNothing(w: World, id: Option<string>)
    ensures SameOpen(w, AfterAdd(w, id))
  {}

  lemma RemoveOpensNothing(w: World, i: nat)
    requires Formed(w)
    ensures SameOpen(w, AfterRemove(w, i))
  {
    hide Formed, Stranded, Remove;
  }

  lemma ReplaceOpensNothing(w: World, n: nat, s: Option<Strategy>)
    ensures SameOpen(w, AfterReplace(w, n, s))
  {}

  lemma OpenAfter(w: World, step: Step)
    requires Formed(w) && Enabled(w, step)
    ensures Apply(w, step).dials == DialsAfter(w, step)
    ensures Apply(w, step).guards == GuardsAfter(w, step)
    ensures Apply(w, step).drops == DropsAfter(w, step)
    ensures Apply(w, step).reports == ReportsAfter(w, step)
  {
    hide Formed, Enabled, Picked, WellFormed, Holds, Noted, ReportError, AfterAdd, AfterRemove, AfterReplace,
         Begin, Succeed, Fail, Release, Drain, Undrain;
    match step
    case AddOne(id) => AddOpensNothing(w, id);
    case RemoveAt(i) => RemoveOpensNothing(w, i);
    case ReplaceAll(n, s) => ReplaceOpensNothing(w, n, s);
    case _ =>
  }

  // ----------------------------------------------------------- reconfiguration

  /** Where the member that a reconfiguration leaves at `j` was before, if it was there. */
  function Origin(w: World, step: Step, j: nat): Option<nat> {
    match step
    case AddOne(_) => if j < |w.pool.members| then Some(j) else None
    case RemoveAt(k) => Some(if k < |w.pool.members| && k <= j then j + 1 else j)
    case ReplaceAll(n, _) => if n == 0 then Some(j) else None
    case _ => Some(j)
  }

  /** A survivor keeps its backend, id and metrics; a newcomer is a new backend. */
  lemma SurvivorKeepsRecord(w: World, step: Step, j: nat)
    requires Formed(w) && Enabled(w, step) && Reconfigures(step) && j < |Apply(w, step).pool.members|
    ensures var v := Apply(w, step);
            && |v.accounts| == |v.pool.members|
            && match Origin(w, step, j)
               case None => v.pool.members[j].backend >= w.nextBackend
               case Some(i) =>
                 && i < |w.pool.members| && v.pool.members[j] == w.pool.members[i]
                 && v.accounts[j] == if step.RemoveAt? && step.i < |w.pool.members| then Stranded(w, i) else w.accounts[i]
  {
    hide Formed, Exclusive, Stranded, AfterAdd, AfterRemove, AfterReplace;
    match step
    case AddOne(id) => AdditionKeepsRecord(w, id, j);
    case RemoveAt(k) => RemovalKeepsRecord(w, k, j);
    case ReplaceAll(n, s) => ReplacementIsNew(w, n, s, j);
  }

  lemma AdditionKeepsRecord(w: World, id: Option<string>, j: nat)
    requires Formed(w) && j < |AfterAdd(w, id).pool.members|
    ensures var v := AfterAdd(w, id);
            && |v.accounts| == |v.pool.members| == |w.pool.members| + 1
            && (j < |w.pool.members| ==> v.pool.members[j] == w.pool.members[j] && v.accounts[j] == w.accounts[j])
            && (j == |w.pool.members| ==> v.pool.members[j].backend == w.nextBackend)
  {
    hide WellFormed;
  }

  lemma RemovalKeepsRecord(w: World, k: nat, j: nat)
    requires Formed(w) && j < |AfterRemove(w, k).pool.members|
    ensures var v, bump := AfterRemove(w, k), k < |w.pool.members|;
            var i := if bump && k <= j then j + 1 else j;
            && |v.accounts| == |v.pool.members| && i < |w.pool.members|
            && v.pool.members[j] == w.pool.members[i]
            && v.accounts[j] == if bump then Stranded(w, i) else w.accounts[i]
  {
    hide WellFormed, Stranded;
  }

  lemma ReplacementIsNew(w: World, n: nat, s: Option<Strategy>, j: nat)
    requires Formed(w) && j < |AfterReplace(w, n, s).pool.members|
    ensures |AfterReplace(w, n, s).accounts| == |AfterReplace(w, n, s).pool.members|
    ensures n == 0 ==> AfterReplace(w, n, s) == w
    ensures n > 0 ==> AfterReplace(w, n, s).pool.members[j].backend >= w.nextBackend
  {
    hide WellFormed;
  }

  // -------------------------------------------------------------------- runs

  lemma StrategyFormed(w: World, step: Step)
    requires Formed(w) && Enabled(w, step)
    ensures WellFormed(Apply(w, step).strategy)
  {
    hide Picked;
  }

  lemma DialsFormed(w: World, step: Step)
    requires Formed(w) && Enabled(w, step)
    ensures Reconfigures(step) ==> Apply(w, step).dials == multiset{}
    ensures forall t :: t in Apply(w, step).dials ==> t.index < |w.pool.members|
  {
    hide Apply, Picked, WellFormed;
    OpenAfter(w, step);
    forall t | t in DialsAfter(w, step) ensures t.index < |w.pool.members| {
      if t !in w.dials { assert step.BeginDial?; }
    }
    hide DialsAfter;
  }

  lemma AccountsFormed(w: World, step: Step)
    requires Formed(w) && Enabled(w, step) && Reconfigures(step)
    ensures |Apply(w, step).accounts| == |Apply(w, step).pool.members|
  {
    hide WellFormed, Stranded, AfterBegin, AfterOk, AfterErr, AfterCancel, AfterCheck, AfterWrite;
  }

  /** Whatever it does to the books, a step leads to a world in which steps make sense. */
  lemma ApplyFormed(w: World, step: Step)
    requires Formed(w) && Enabled(w, step)
    ensures Formed(Apply(w, step))
  {
    StrategyFormed(w, step);
    DialsFormed(w, step);
    if Reconfigures(step) {
      AccountsFormed(w, step);
    } else {
      InPlace(w, step);
    }
    hide Apply, Enabled, WellFormed, Touched;
  }

  /** Every step is enabled where it is taken: what the code can do. */
  ghost predicate Possible(w: World, steps: seq<Step>)
    requires Formed(w)
    decreases |steps|
  {
    steps == [] ||
    (Enabled(w, steps[0]) && (ApplyFormed(w, steps[0]); Possible(Apply(w, steps[0]), steps[1..])))
  }

  ghost function Run(w: World, steps: seq<Step>): (v: World)
    requires Formed(w) && Possible(w, steps)
    ensures Formed(v)
    decreases |steps|
  {
    if steps == [] then w
    else
      ApplyFormed(w, steps[0]);
      Run(Apply(w, steps[0]), steps[1..])
  }

  ghost predicate TameAll(w: World, steps: seq<Step>)
    requires Formed(w) && Possible(w, steps)
    decreases |steps|
  {
    steps == [] ||
    (Tame(w, steps[0]) && (ApplyFormed(w, steps[0]); TameAll(Apply(w, steps[0]), steps[1..])))
  }

  /** The books balance in every world the run visits. */
  ghost predicate GoodThroughout(w: World, steps: seq<Step>)
    requires Formed(w) && Possible(w, steps)
    decreases |steps|
  {
    Good(w) && (steps == [] || (ApplyFormed(w, steps[0]); GoodThroughout(Apply(w, steps[0]), steps[1..])))
  }

  ghost predicate Legal(w: World, steps: seq<Step>)
    requires Formed(w)
  {
    Possible(w, steps) && TameAll(w, steps)
  }

  lemma RunStep(w: World, steps: seq<Step>)
    requires Formed(w) && steps != [] && Possible(w, steps)
    ensures Enabled(w, steps[0]) && Formed(Apply(w, steps[0]))
    ensures Possible(Apply(w, steps[0]), steps[1..])
    ensures Run(w, steps) == Run(Apply(w, steps[0]), steps[1..])
    ensures TameAll(w, steps) <==> Tame(w, steps[0]) && TameAll(Apply(w, steps[0]), steps[1..])
    ensures GoodThroughout(w, steps) <==> Good(w) && GoodThroughout(Apply(w, steps[0]), steps[1..])
  {
    hide Apply, Enabled, Tame, Good, Formed;
    ApplyFormed(w, steps[0]);
  }

  /** A run keeps the books in every world it visits exactly when each of its steps is tame. */
  lemma {:induction false} RunGoodIff(w: World, steps: seq<Step>)
    requires Good(w) && Formed(w) && Possible(w, steps)
    ensures GoodThroughout(w, steps) <==> TameAll(w, steps)
    ensures TameAll(w, steps) ==> Good(Run(w, steps))
    decreases |steps|
  {
    hide Apply, Enabled, Tame, Good, Formed;
    if steps == [] {
    } else {
      RunStep(w, steps);
      StepGoodIff(w, steps[0]);
      var v := Apply(w, steps[0]);
      if Good(v) {
        RunGoodIff(v, steps[1..]);
      } else {
        assert !GoodThroughout(v, steps[1..]);
      }
    }
  }

  /** The counters of member `i` against what has happened on it. */
  ghost predicate Balances(w: World, i: nat)
    requires i < |w.pool.members| == |w.accounts|
  {
    var m, a, t := w.pool.members[i].metrics, w.accounts[i], TicketAt(w.pool, i);
    var open := w.dials[t] + w.guards[t] + w.drops[PendingAt(w.pool, i)];
    && m.activeConnections == a.seed.activeConnections + open + Leaked(a.tally)
    && a.tally.began == a.tally.succeeded + a.tally.failed + a.tally.cancelled + w.dials[t]
    && m.totalDials == Wrap64(a.seed.totalDials + a.tally.began)
    && m.totalErrors == Min(U64_MAX, a.seed.totalErrors + a.tally.failed)
  }

  /** Conservation and guard identity, spelled out. */
  ghost predicate BooksBalance(w: World) {
    && |w.accounts| == |w.pool.members|
    && (forall i :: 0 <= i < |w.pool.members| ==> Balances(w, i))
    && (forall t :: t in w.guards && t.gen == w.pool.generation ==>
         t.index < |w.pool.members| && w.pool.members[t.index].backend == t.backend)
    && (forall d :: d in w.drops ==> Right(w.pool, d))
  }

  lemma GoodBalances(w: World)
    requires Good(w)
    ensures BooksBalance(w)
  {
    hide Wrap64;
    forall i | 0 <= i < |w.pool.members| ensures Balances(w, i) { assert ConservedAt(w, i); }
  }

  /** From construction on, the books balance in every world a tame run visits. */
  lemma EveryRunConserves(seeds: seq<TunnelMetrics>, strategy: Strategy, steps: seq<Step>)
    requires WellFormed(strategy)
    ensures Good(Start(seeds, strategy)) && Formed(Start(seeds, strategy))
    ensures Legal(Start(seeds, strategy), steps) ==> BooksBalance(Run(Start(seeds, strategy), steps))
  {
    hide Start, Good, Possible, TameAll, Run, BooksBalance;
    var w := Start(seeds, strategy);
    StartIsGood(seeds, strategy);
    GoodIsShaped(w);
    if Legal(w, steps) {
      RunGoodIff(w, steps);
      GoodBalances(Run(w, steps));
    }
  }

  /** Wherever the code takes one off a count, for a failed dial or a dropped guard, it is its
      own backend's count and it is positive; or that backend has left and nothing changes. */
  lemma NeverSaturates(w: World, t: Ticket, d: Pending)
    requires Good(w)
    ensures t in w.dials ==> Names(w.pool, t) && w.pool.members[t.index].metrics.activeConnections > 0
    ensures d in w.drops && d.index < |w.pool.members| ==>
              Holds(w.pool, d.index, d.backend) && w.pool.members[d.index].metrics.activeConnections > 0
    ensures d in w.drops && d.index >= |w.pool.members| ==>
              && Release(w.pool, d.index) == w.pool
              && (forall k :: 0 <= k < |w.pool.members| ==> w.pool.members[k].backend != d.backend)
  {
    if t in w.dials { TicketCurrent(w, t); }
    if d in w.drops && d.index < |w.pool.members| {
      assert d == PendingAt(w.pool, d.index) && ConservedAt(w, d.index);
    }
  }

  /** The step leaves member `i` in the pool. */
  predicate Keeps(step: Step, i: nat) {
    match step
    case RemoveAt(k) => k != i
    case ReplaceAll(n, _) => n == 0
    case _ => true
  }

  predicate KeepsAll(steps: seq<Step>, i: nat) {
    steps != [] ==> Keeps(steps[0], i) && KeepsAll(steps[1..], IndexAfter(steps[0], i))
  }

  /** Where member `i` is after a step that keeps it. */
  function IndexAfter(step: Step, i: nat): nat {
    if step.RemoveAt? && step.i < i then i - 1 else i
  }

  function IndexAfterAll(steps: seq<Step>, i: nat): nat {
    if steps == [] then i else IndexAfterAll(steps[1..], IndexAfter(steps[0], i))
  }

  lemma ReconfigurationFrame(w: World, step: Step, i: nat)
    requires Formed(w) && Enabled(w, step) && Reconfigures(step)
    requires i < |w.pool.members| && Keeps(step, i)
    ensures var v, j := Apply(w, step), IndexAfter(step, i);
            && v.dials == multiset{} && v.strategy == w.strategy
            && j < |v.pool.members| && Origin(w, step, j) == Some(i)
  {
    hide WellFormed, Stranded, AfterBegin, AfterOk, AfterErr, AfterCancel, AfterCheck, AfterWrite;
  }

  // ------------------------------------------------------------- short runs

  /** One more step in front of a run. */
  lemma Prepend(w: World, step: Step, rest: seq<Step>)
    requires Formed(w) && Enabled(w, step)
    ensures Formed(Apply(w, step))
    ensures Possible(w, [step] + rest) <==> Possible(Apply(w, step), rest)
    ensures Possible(w, [step] + rest) ==>
              && Run(w, [step] + rest) == Run(Apply(w, step), rest)
              && (TameAll(w, [step] + rest) <==> Tame(w, step) && TameAll(Apply(w, step), rest))
  {
    hide Apply, Enabled, Tame, Formed;
    ApplyFormed(w, step);
    assert ([step] + rest)[1..] == rest;
  }

  lemma TwoSteps(w: World, a: Step, b: Step)
    requires Formed(w) && Enabled(w, a)
    requires Formed(Apply(w, a)) && Enabled(Apply(w, a), b)
    ensures Possible(w, [a, b]) && Run(w, [a, b]) == Apply(Apply(w, a), b)
  {
    hide Apply, Enabled, Formed;
    Prepend(Apply(w, a), b, []);
    Prepend(w, a, [b]);
    assert [b] + [] == [b] && [a] + [b] == [a, b];
  }

  lemma ThreeSteps(w: World, a: Step, b: Step, c: Step)
    requires Formed(w) && Enabled(w, a)
    requires Formed(Apply(w, a)) && Enabled(Apply(w, a), b)
    requires Formed(Apply(Apply(w, a), b)) && Enabled(Apply(Apply(w, a), b), c)
    ensures Possible(w, [a, b, c]) && Run(w, [a, b, c]) == Apply(Apply(Apply(w, a), b), c)
  {
    hide Apply, Enabled, Formed;
    var u := Apply(w, a);
    Prepend(Apply(u, b), c, []);
    Prepend(u, b, [c]);
    Prepend(w, a, [b, c]);
    assert [c] + [] == [c] && [b] + [c] == [b, c] && [a] + [b, c] == [a, b, c];
  }

  // ------------------------------------------------------------ dials begun

  /** Whether a step begins a dial on member `i`, as a number. */
  ghost function BegunBy(w: World, step: Step, i: nat): nat
    requires Formed(w) && Enabled(w, step)
  {
    if step.BeginDial? && Picked(w, step.draw).1 == i then 1 else 0
  }

  ghost function BegunOn(w: World, steps: seq<Step>, i: nat): nat
    requires Formed(w) && Possible(w, steps)
    decreases |steps|
  {
    if steps == [] then 0
    else
      RunStep(w, steps);
      BegunBy(w, steps[0], i) + BegunOn(Apply(w, steps[0]), steps[1..], IndexAfter(steps[0], i))
  }

  /** How many dials a run begins. */
  function Begun(steps: seq<Step>): nat {
    if steps == [] then 0 else (if steps[0].BeginDial? then 1 else 0) + Begun(steps[1..])
  }

  lemma BeganTouched(w: World, step: Step)
    requires Formed(w) && Enabled(w, step) && !Reconfigures(step) && Touched(w, step) < |w.pool.members|
    ensures |Apply(w, step).accounts| == |w.accounts|
    ensures var i := Touched(w, step);
            Apply(w, step).accounts[i].tally.began == w.accounts[i].tally.began + BegunBy(w, step, i)
  {
    hide WellFormed, Picked, Begin, Succeed, Fail, Release, Drain, Undrain, AfterAdd, AfterRemove, AfterReplace;
  }

  lemma BeganStep(w: World, step: Step, i: nat)
    requires Formed(w) && Enabled(w, step) && i < |w.pool.members| && Keeps(step, i)
    ensures var v, j := Apply(w, step), IndexAfter(step, i);
            && j < |v.pool.members| == |v.accounts|
            && v.pool.members[j].backend == w.pool.members[i].backend
            && v.accounts[j].tally.began == w.accounts[i].tally.began + BegunBy(w, step, i)
  {
    if Reconfigures(step) {
      ReconfigurationFrame(w, step, i);
      SurvivorKeepsRecord(w, step, IndexAfter(step, i));
    } else {
      InPlace(w, step);
      if i == Touched(w, step) { BeganTouched(w, step); }
    }
    hide Apply, Formed, Enabled;
  }

  /** A run that keeps a backend adds to its dials begun exactly the picks that fell on it. */
  lemma {:induction false} BeganOverRun(w: World, steps: seq<Step>, i: nat)
    requires Formed(w) && Possible(w, steps) && i < |w.pool.members| && KeepsAll(steps, i)
    ensures var v, j := Run(w, steps), IndexAfterAll(steps, i);
            && j < |v.pool.members| == |v.accounts|
            && v.pool.members[j].backend == w.pool.members[i].backend
            && v.accounts[j].tally.began == w.accounts[i].tally.began + BegunOn(w, steps, i)
    decreases |steps|
  {
    hide Apply, Enabled, BegunBy;
    if steps == [] {
    } else {
      RunStep(w, steps);
      BeganStep(w, steps[0], i);
      hide Formed;
      BeganOverRun(Apply(w, steps[0]), steps[1..], IndexAfter(steps[0], i));
    }
  }

  // ------------------------------------------------------------ new strategies

  /** After a replacement the next dial is picked by the new strategy in the state it came in, or
      without one by the old strategy in its old state. */
  lemma ReplacementPicks(w: World, n: nat, s: Option<Strategy>, draw: nat)
    requires Formed(w) && n > 0 && (s.Some? ==> WellFormed(s.value))
    ensures var v, picker := AfterReplace(w, n, s), if s.Some? then s.value else w.strategy;
            && WellFormed(picker) && WellFormed(v.strategy) && v.pool.members != []
            && Picked(v, draw) == PickStep(picker, seq(n, _ => TunnelMetrics(None, 0, 0, 0, 0)), draw)
  {
    hide PickStep, WellFormed;
    assert MetricsOf(AfterReplace(w, n, s).pool) == seq(n, _ => TunnelMetrics(None, 0, 0, 0, 0));
  }

  lemma NewStrategyPicks(w: World, s: Strategy, draw: nat)
    requires Formed(w) && Enabled(w, SetStrategy(s)) && w.pool.members != []
    ensures var v := Apply(w, SetStrategy(s));
            && v.pool == w.pool && WellFormed(v.strategy)
            && Picked(v, draw) == PickStep(s, MetricsOf(w.pool), draw)
  {
    hide PickStep;
  }
}
