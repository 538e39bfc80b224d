/** Runs that break the books: a reconfiguration between a guard's check and its decrement,
    and a generation counter that comes round to a stale guard. */
module Races {
  import opened Machine
  import opened Metrics
  import opened Pools
  import opened Runs
  import opened Strategies

  /** A guard that carries the present generation, with no dial under way. */
  ghost predicate Armed(w: World, t: Ticket) {
    Good(w) && Formed(w) && Exclusive(w) && t in w.guards && t.gen == w.pool.generation
  }

  /** Such worlds are reached: one dial that succeeds leads to one. */
  lemma DialArms(w: World, draw: nat)
    requires Good(w) && Formed(w) && Exclusive(w) && w.pool.members != [] && Tame(w, BeginDial(draw))
    ensures var t := TicketAt(w.pool, Picked(w, draw).1);
            var steps := [BeginDial(draw), DialOk(t)];
            Legal(w, steps) && Armed(Run(w, steps), t)
  {
    var t, u := TicketAt(w.pool, Picked(w, draw).1), AfterBegin(w, draw);
    StepGoodIff(w, BeginDial(draw));
    ApplyFormed(w, BeginDial(draw));
    hide Good, Tame, Formed, WellFormed, Picked;
    SuccessArms(u, t);
    Prepend(w, BeginDial(draw), [DialOk(t)]);
    assert [BeginDial(draw)] + [DialOk(t)] == [BeginDial(draw), DialOk(t)];
  }

  lemma SuccessArms(u: World, t: Ticket)
    requires Good(u) && Formed(u) && u.dials == multiset{t} && u.reports == multiset{} && t.gen == u.pool.generation
    ensures Legal(u, [DialOk(t)]) && Armed(Run(u, [DialOk(t)]), t)
  {
    StepGoodIff(u, DialOk(t));
    hide Good, Formed, WellFormed;
    Prepend(u, DialOk(t), []);
    assert [DialOk(t)] + [] == [DialOk(t)];
    assert AfterOk(u, t).dials == multiset{};
  }

  // ------------------------------------------------- between check and decrement

  /** Check, reconfiguration, decrement: the guard `t` is dropped across the step `change`. */
  function Across(t: Ticket, change: Step): seq<Step> {
    [GuardCheck(t), change, GuardWrite(Pending(t.index, t.backend), true)]
  }

  /** The pending decrement outlives the reconfiguration. */
  lemma DropOutlives(u: World, change: Step, d: Pending)
    requires Formed(u) && Reconfigures(change) && Enabled(u, change) && d in u.drops
    ensures d in Apply(u, change).drops
  {
    hide WellFormed, Stranded;
  }

  lemma AcrossRuns(w: World, t: Ticket, change: Step)
    requires Armed(w, t) && Reconfigures(change) && Enabled(w, change)
    ensures var u := AfterCheck(w, t);
            && Formed(u) && Exclusive(u) && Enabled(u, change) && u.pool == w.pool
            && Possible(w, Across(t, change))
            && Run(w, Across(t, change)).pool == Release(Apply(u, change).pool, t.index)
  {
    hide Good, WellFormed, Apply;
    var d, u := Pending(t.index, t.backend), AfterCheck(w, t);
    assert Apply(w, GuardCheck(t)) == u by { AppliesCheck(w, t); }
    ApplyFormed(w, GuardCheck(t));
    ApplyFormed(u, change);
    DropOutlives(u, change, d);
    hide Formed;
    ThreeSteps(w, GuardCheck(t), change, GuardWrite(d, true));
    AppliesWrite(Apply(u, change), d);
  }

  lemma AppliesCheck(w: World, t: Ticket)
    requires Formed(w) && t in w.guards
    ensures Apply(w, GuardCheck(t)) == AfterCheck(w, t)
  {}

  lemma AppliesWrite(w: World, d: Pending)
    requires Formed(w) && d in w.drops
    ensures Apply(w, GuardWrite(d, true)).pool == Release(w.pool, d.index)
  {}

  lemma RemovedThenReleased(p: Pool, i: nat, k: nat)
    requires i < |p.members| && k < |p.members|
    ensures var q, n := Release(Remove(p, k), i), |p.members|;
            && |q.members| == n - 1
            && (i < k ==> q.members[i] == p.members[i].(metrics := Released(p.members[i].metrics)))
            && (k <= i < n - 1 ==> q.members[i] == p.members[i + 1].(metrics := Released(p.members[i + 1].metrics)))
            && (i == n - 1 ==> q == Remove(p, k) && (k < i ==> q.members[i - 1] == p.members[i]))
  {}

  /** A removal between check and decrement. Of a later member, it does no harm. Otherwise the
      decrement hits the next backend's count, or, for the last member, nothing at all: its own
      backend has left, or stays one too high. */
  lemma RemovalRace(w: World, t: Ticket, k: nat)
    requires Armed(w, t) && k < |w.pool.members|
    ensures Names(w.pool, t) && Possible(w, Across(t, RemoveAt(k)))
    ensures var v, n, i := Run(w, Across(t, RemoveAt(k))), |w.pool.members|, t.index;
            var own := w.pool.members[i];
            && |v.pool.members| == n - 1
            && (i < k ==> v.pool.members[i] == own.(metrics := Released(own.metrics)))
            && (k <= i < n - 1 ==>
                 var next := w.pool.members[i + 1];
                 v.pool.members[i] == next.(metrics := Released(next.metrics)) && next.backend != t.backend)
            && (i == n - 1 ==> v.pool == Remove(w.pool, k) && (k < i ==> v.pool.members[i - 1] == own))
  {
    hide *;
    ArmedIsCurrent(w, t);
    AcrossRemoval(w, t, k);
    RemovedThenReleased(w.pool, t.index, k);
  }

  lemma ArmedIsCurrent(w: World, t: Ticket)
    requires Armed(w, t)
    ensures Formed(w) && Names(w.pool, t) && t.index < |w.pool.members| && t.backend < w.nextBackend
    ensures t.index + 1 < |w.pool.members| ==> w.pool.members[t.index + 1].backend != t.backend
  {
    TicketCurrent(w, t);
  }

  lemma AcrossRemoval(w: World, t: Ticket, k: nat)
    requires Armed(w, t) && k < |w.pool.members|
    ensures Formed(w) && Possible(w, Across(t, RemoveAt(k)))
    ensures Run(w, Across(t, RemoveAt(k))).pool == Release(Remove(w.pool, k), t.index)
  {
    AcrossRuns(w, t, RemoveAt(k));
    hide Good, Formed, Possible, Run, Across, Release;
  }

  lemma ReplacedThenReleased(p: Pool, backends: seq<nat>, i: nat)
    requires i < |backends|
    ensures Release(Replace(p, backends), i) == Replace(p, backends)
    ensures var q := Replace(p, backends);
            && i < |q.members| && q.members[i].backend == backends[i]
            && q.members[i].metrics.activeConnections == 0
  {}

  function NewBackends(w: World, n: nat): (r: seq<nat>)
    ensures |r| == n && forall k :: 0 <= k < n ==> r[k] == w.nextBackend + k
  {
    seq(n, k => w.nextBackend + k)
  }

  lemma AcrossReplacement(w: World, t: Ticket, n: nat, s: Option<Strategy>)
    requires Armed(w, t) && n > 0 && (s.Some? ==> WellFormed(s.value))
    ensures Formed(w) && Possible(w, Across(t, ReplaceAll(n, s)))
    ensures Run(w, Across(t, ReplaceAll(n, s))).pool == Release(Replace(w.pool, NewBackends(w, n)), t.index)
  {
    AcrossRuns(w, t, ReplaceAll(n, s));
    hide Good, Formed, Possible, Run, Across, Release;
    assert seq(n, k => w.nextBackend + k) == NewBackends(w, n);
  }

  /** A replacement between check and decrement: the decrement saturates on a count of nought. */
  lemma ReplacementRace(w: World, t: Ticket, n: nat, s: Option<Strategy>)
    requires Armed(w, t) && t.index < n && (s.Some? ==> WellFormed(s.value))
    ensures Formed(w) && Possible(w, Across(t, ReplaceAll(n, s)))
    ensures var v := Run(w, Across(t, ReplaceAll(n, s)));
            && v.pool == Replace(w.pool, NewBackends(w, n)) && t.index < |v.pool.members|
            && v.pool.members[t.index].backend != t.backend
            && v.pool.members[t.index].metrics.activeConnections == 0
  {
    hide *;
    ArmedIsCurrent(w, t);
    AcrossReplacement(w, t, n, s);
    ReplacedThenReleased(w.pool, NewBackends(w, n), t.index);
  }

  // ----------------------------------------------------------- generation wrap

  /** Add a backend at the end of a pool of `n` and remove it again, `k` times. */
  function Churn(n: nat, k: nat): seq<Step> {
    if k == 0 then [] else [AddOne(None)] + ([RemoveAt(n)] + Churn(n, k - 1))
  }

  lemma AddThenRemove(p: Pool, backend: nat)
    ensures Remove(Add(p, backend, None), |p.members|) == p.(generation := IncWrap64(p.generation))
  {}

  /** One round only moves the generation on. */
  lemma ChurnOnce(w: World)
    requires Good(w) && Formed(w) && Exclusive(w) && w.drops == multiset{} && NextGenerationFree(w)
    ensures Enabled(w, AddOne(None)) && Tame(w, AddOne(None))
    ensures var n, u := |w.pool.members|, Apply(w, AddOne(None));
            && Formed(u) && Enabled(u, RemoveAt(n)) && Tame(u, RemoveAt(n))
            && var v := Apply(u, RemoveAt(n));
               && Good(v) && Formed(v) && Exclusive(v) && v.drops == multiset{}
               && v.pool == w.pool.(generation := IncWrap64(w.pool.generation)) && v.guards == w.guards
  {
    hide Good, Formed, WellFormed, Stranded;
    var n, u := |w.pool.members|, Apply(w, AddOne(None));
    StepGoodIff(w, AddOne(None));
    GoodIsShaped(u);
    AddThenRemove(w.pool, w.nextBackend);
    StepGoodIff(u, RemoveAt(n));
    ApplyFormed(u, RemoveAt(n));
  }

  /** How many increments take the generation from `from` to `g`; at least one. */
  function Rounds(from: U64, g: U64): nat {
    if from < g then g - from else g + 0x1_0000_0000_0000_0000 - from
  }

  /** Any number of rounds is a legal run while no guard carries a generation it passes. */
  lemma {:induction false} ChurnRuns(w: World, k: nat)
    requires Good(w) && Formed(w) && Exclusive(w) && w.drops == multiset{}
    requires forall t :: t in w.guards ==> k < Rounds(w.pool.generation, t.gen)
    ensures Legal(w, Churn(|w.pool.members|, k))
    ensures var v := Run(w, Churn(|w.pool.members|, k));
            && Good(v) && Exclusive(v) && v.drops == multiset{}
            && v.pool == w.pool.(generation := Wrap64(w.pool.generation + k)) && v.guards == w.guards
    decreases k
  {
    hide Good, Formed, Tame, Apply, Enabled, Exclusive, Wrap64;
    if k == 0 {
      WrapSmall(w.pool.generation);
    } else {
      assert NextGenerationFree(w);
      ChurnOnce(w);
      var n, u := |w.pool.members|, Apply(w, AddOne(None));
      ChurnRuns(Apply(u, RemoveAt(n)), k - 1);
      Prepend(u, RemoveAt(n), Churn(n, k - 1));
      Prepend(w, AddOne(None), [RemoveAt(n)] + Churn(n, k - 1));
      WrapAdd(w.pool.generation, k - 1);
    }
  }

  lemma WrapSmall(g: U64)
    ensures Wrap64(g) == g
  {}

  lemma WrapAdd(g: U64, k: nat)
    ensures Wrap64(IncWrap64(g) + k) == Wrap64(g + k + 1)
  {}

  /** The generation comes round: from any world with one live guard, a run that is legal up to
      its last step ends with a removal after which the stale guard passes its check again,
      although its index now holds another backend. */
  lemma GenerationWrapRevives(w: World, t: Ticket)
    requires Armed(w, t) && w.guards == multiset{t} && w.drops == multiset{} && t.index + 1 < |w.pool.members|
    ensures var steps := Churn(|w.pool.members|, U64_MAX);
            && Legal(w, steps)
            && var v := Run(w, steps);
               && Good(v) && Enabled(v, RemoveAt(0)) && !Tame(v, RemoveAt(0))
               && var x := Apply(v, RemoveAt(0));
                  t in x.guards && t.gen == x.pool.generation && !Names(x.pool, t)
  {
    TicketCurrent(w, t);
    ChurnRuns(w, U64_MAX);
    WrapLast(w.pool.generation);
    hide Good, Formed, Possible, TameAll, Churn, Wrap64, Apply, Enabled, Tame;
    LastRemoval(w, Run(w, Churn(|w.pool.members|, U64_MAX)), t);
  }

  lemma LastRemoval(w: World, v: World, t: Ticket)
    requires Current(w, t) && t.index + 1 < |w.pool.members|
    requires Good(v) && Exclusive(v) && t in v.guards && v.pool == w.pool.(generation := v.pool.generation)
    requires IncWrap64(v.pool.generation) == t.gen
    ensures Formed(v) && Enabled(v, RemoveAt(0)) && !Tame(v, RemoveAt(0))
    ensures var x := Apply(v, RemoveAt(0)); t in x.guards && t.gen == x.pool.generation && !Names(x.pool, t)
  {
    GoodIsShaped(v);
    assert v.pool.members[t.index].backend != v.pool.members[t.index + 1].backend;
    hide Good, Shaped, WellFormed, Stranded;
  }

  lemma WrapLast(g: U64)
    ensures IncWrap64(Wrap64(g + U64_MAX)) == g
  {}
}
