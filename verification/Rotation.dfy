/** Failover inside the balancer: dials, errors and reports as the machine runs them. */
module Rotation {
  import opened Arithmetic
  import opened Machine
  import opened Metrics
  import opened Pools
  import opened Runs
  import opened Strategies
  import Failover

  /** One dial while exactly the members at the indices in `down` fail: it succeeds, or it is
      counted as an error and reported to the strategy. */
  ghost function Attempt(w: World, draw: nat, down: set<nat>): seq<Step>
    requires Formed(w) && w.pool.members != []
  {
    var i := Picked(w, draw).1;
    var t := TicketAt(w.pool, i);
    if i in down then [BeginDial(draw), DialErr(t), ReportErr(i)] else [BeginDial(draw), DialOk(t)]
  }

  lemma BegunDial(w: World, draw: nat)
    requires Formed(w) && w.pool.members != []
    ensures var v, i := Apply(w, BeginDial(draw)), Picked(w, draw).1;
            && Formed(v) && v.strategy == Picked(w, draw).0 && |v.pool.members| == |w.pool.members|
            && TicketAt(w.pool, i) in v.dials
  {
    ApplyFormed(w, BeginDial(draw));
    hide Picked, WellFormed, Formed;
  }

  lemma EndedDial(v: World, t: Ticket)
    requires Formed(v) && t in v.dials
    ensures var x := Apply(v, DialOk(t)); Formed(x) && x.strategy == v.strategy && |x.pool.members| == |v.pool.members|
    ensures var x := Apply(v, DialErr(t));
            && Formed(x) && x.strategy == v.strategy && |x.pool.members| == |v.pool.members|
            && t.index in x.reports
  {
    ApplyFormed(v, DialOk(t));
    ApplyFormed(v, DialErr(t));
    hide WellFormed, Formed;
  }

  lemma ReportedError(x: World, i: nat)
    requires Formed(x) && i in x.reports
    ensures var y := Apply(x, ReportErr(i));
            Formed(y) && y.strategy == ReportError(x.strategy, i) && y.pool == x.pool
  {
    ApplyFormed(x, ReportErr(i));
  }

  /** An attempt can be made, leaves the pool's size, and ends with the error reported if it failed. */
  lemma AttemptRuns(w: World, draw: nat, down: set<nat>)
    requires Formed(w) && w.pool.members != []
    ensures Possible(w, Attempt(w, draw, down))
    ensures var v, (s, i) := Run(w, Attempt(w, draw, down)), Picked(w, draw);
            && |v.pool.members| == |w.pool.members|
            && v.strategy == if i in down then ReportError(s, i) else s
  {
    if Picked(w, draw).1 in down {
      FailedAttempt(w, draw);
    } else {
      WorkingAttempt(w, draw);
    }
    hide Run, Possible, Formed, Picked;
  }

  lemma WorkingAttempt(w: World, draw: nat)
    requires Formed(w) && w.pool.members != []
    ensures var steps := [BeginDial(draw), DialOk(TicketAt(w.pool, Picked(w, draw).1))];
            && Possible(w, steps)
            && Run(w, steps).strategy == Picked(w, draw).0 && |Run(w, steps).pool.members| == |w.pool.members|
  {
    BegunDial(w, draw);
    hide Picked, WellFormed, Formed, Apply;
    var t, v := TicketAt(w.pool, Picked(w, draw).1), Apply(w, BeginDial(draw));
    EndedDial(v, t);
    TwoSteps(w, BeginDial(draw), DialOk(t));
  }

  lemma FailedAttempt(w: World, draw: nat)
    requires Formed(w) && w.pool.members != []
    ensures var (s, i) := Picked(w, draw);
            var steps := [BeginDial(draw), DialErr(TicketAt(w.pool, i)), ReportErr(i)];
            && Possible(w, steps)
            && Run(w, steps).strategy == ReportError(s, i) && |Run(w, steps).pool.members| == |w.pool.members|
  {
    BegunDial(w, draw);
    hide Picked, WellFormed, Formed, Apply, ReportError;
    var i := Picked(w, draw).1;
    var t, v := TicketAt(w.pool, i), Apply(w, BeginDial(draw));
    EndedDial(v, t);
    ReportedError(Apply(v, DialErr(t)), i);
    ThreeSteps(w, BeginDial(draw), DialErr(t), ReportErr(i));
  }

  /** The world after `k` attempts, one after another. */
  ghost function Attempts(w: World, draws: nat -> nat, down: set<nat>, k: nat): (v: World)
    requires Formed(w) && w.pool.members != []
    ensures Formed(v) && |v.pool.members| == |w.pool.members|
  {
    if k == 0 then w
    else
      var u := Attempts(w, draws, down, k - 1);
      AttemptRuns(u, draws(k - 1), down);
      Run(u, Attempt(u, draws(k - 1), down))
  }

  /** The member that attempt `k` is made on, counted from 0. */
  ghost function Tried(w: World, draws: nat -> nat, down: set<nat>, k: nat): (i: nat)
    requires Formed(w) && w.pool.members != []
    ensures i < |w.pool.members|
  {
    Picked(Attempts(w, draws, down, k), draws(k)).1
  }

  lemma FailoverAttempt(u: World, draw: nat, down: set<nat>)
    requires Formed(u) && u.pool.members != [] && u.strategy.Failover?
    ensures Possible(u, Attempt(u, draw, down))
    ensures Run(u, Attempt(u, draw, down)).strategy
         == Strategies.Failover(Failover.Dial(u.strategy.failing, |u.pool.members|, down))
    ensures Picked(u, draw).1 == Failover.PickStep(u.strategy.failing, |u.pool.members|).1
  {
    AttemptRuns(u, draw, down);
    hide Possible, Run, Attempt, Formed;
  }

  lemma {:induction false} AttemptsAreDials(w: World, draws: nat -> nat, down: set<nat>, k: nat)
    requires Formed(w) && w.pool.members != [] && w.strategy.Failover?
    ensures var n := |w.pool.members|;
            && Attempts(w, draws, down, k).strategy
               == Strategies.Failover(Failover.Dials(w.strategy.failing, n, down, k))
            && Tried(w, draws, down, k) == Failover.Used(w.strategy.failing, n, down, k)
  {
    hide Run, Possible, Attempt, Formed, Failover.Dial, Failover.PickStep, Picked;
    if k == 0 {
    } else {
      AttemptsAreDials(w, draws, down, k - 1);
      FailoverAttempt(Attempts(w, draws, down, k - 1), draws(k - 1), down);
    }
    FailoverAttempt(Attempts(w, draws, down, k), draws(k), down);
  }

  /** In a pool with a working member the first `d` attempts fail on different members, `d` is at
      most the number of failing ones, and every later attempt succeeds on one and the same. */
  lemma FindsWorkingMember(w: World, draws: nat -> nat, down: set<nat>, up: nat) returns (d: nat)
    requires Formed(w) && w.strategy.Failover? && w.strategy.failing.primary < |w.pool.members|
    requires up < |w.pool.members| && up !in down && forall x :: x in down ==> x < |w.pool.members|
    ensures d <= |down| < |w.pool.members|
    ensures forall k :: 0 <= k < d ==> Tried(w, draws, down, k) in down
    ensures forall i, j :: 0 <= i < j < d ==> Tried(w, draws, down, i) != Tried(w, draws, down, j)
    ensures Tried(w, draws, down, d) !in down
    ensures forall k :: d <= k ==> Tried(w, draws, down, k) == Tried(w, draws, down, d)
  {
    hide Tried, Formed;
    var s, n := w.strategy.failing, |w.pool.members|;
    d := Failover.FindsWorking(s, n, down, up);
    forall k: nat ensures Tried(w, draws, down, k) == Failover.Used(s, n, down, k) {
      AttemptsAreDials(w, draws, down, k);
    }
  }

  /** The order they are tried in: round from the primary, one index further after each failure. */
  lemma TriedInOrder(w: World, draws: nat -> nat, down: set<nat>, k: nat)
    requires Formed(w) && w.strategy.Failover? && w.strategy.failing.primary < |w.pool.members|
    requires k < |w.pool.members|
    requires forall j :: 0 <= j < k ==> Ahead(w.strategy.failing.primary, j, |w.pool.members|) in down
    ensures Tried(w, draws, down, k) == (w.strategy.failing.primary + k) % |w.pool.members|
  {
    hide Tried, Formed;
    AttemptsAreDials(w, draws, down, k);
    Failover.Advances(w.strategy.failing, |w.pool.members|, down, k);
  }
}
