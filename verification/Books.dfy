/** The books of one backend, whatever happens to the others. */
module Books {
  import opened Identity
  import opened Machine
  import opened Metrics
  import opened Pools
  import opened Runs
  import opened Strategies

  /** When a step keeps the books of member `i`: its own counter does not wrap, no other
      backend's decrement lands on it, and a removal changes neither what is pending on it
      nor brings a stale guard of it back to life. */
  ghost predicate TameFor(w: World, step: Step, i: nat)
    requires Formed(w) && Enabled(w, step) && i < |w.pool.members|
  {
    var me := w.pool.members[i];
    match step
    case BeginDial(draw) => Picked(w, draw).1 == i ==> me.metrics.activeConnections < U32_MAX
    case GuardWrite(d, lockFree) =>
      d.index == i && lockFree ==> d.backend == me.backend || me.metrics.activeConnections == 0
    case RemoveAt(k) =>
      k < |w.pool.members| ==>
        var j := IndexAfter(step, i);
        w.guards[Ticket(j, IncWrap64(w.pool.generation), me.backend)] + w.drops[Pending(j, me.backend)]
        == w.drops[Pending(i, me.backend)]
    case _ => true
  }

  lemma ConservedAcross(m: TunnelMetrics, a: Account, l: nat, p: nat, l': nat, p': nat)
    requires Conserved(m, a, 0, l, p)
    ensures Conserved(m, a.(tally := a.tally.(stranded := a.tally.stranded + l)), 0, l', p') <==> l' + p' == p
  {}

  lemma ConservedStray(m: TunnelMetrics, a: Account, d: nat, l: nat, p: nat)
    requires Conserved(m, a, d, l, p)
    ensures Conserved(Released(m), a, d, l, p) <==> m.activeConnections == 0
  {}

  lemma RemovalBooks(w: World, k: nat, i: nat)
    requires Formed(w) && Enabled(w, RemoveAt(k)) && i < |w.pool.members| && i != k && ConservedAt(w, i)
    ensures var v, j := AfterRemove(w, k), IndexAfter(RemoveAt(k), i);
            j < |v.pool.members| == |v.accounts| && (ConservedAt(v, j) <==> TameFor(w, RemoveAt(k), i))
  {
    hide Conserved, WellFormed;
    var v, j := AfterRemove(w, k), IndexAfter(RemoveAt(k), i);
    if k < |w.pool.members| {
      RemovalKeepsRecord(w, k, j);
      RemoveOpensNothing(w, k);
      var t, t' := TicketAt(w.pool, i), TicketAt(v.pool, j);
      hide AfterRemove;
      ConservedAcross(w.pool.members[i].metrics, w.accounts[i], w.guards[t], w.drops[PendingAt(w.pool, i)],
                      w.guards[t'], w.drops[PendingAt(v.pool, j)]);
    }
  }

  /** A reconfiguration that neither removes nor replaces leaves member `i` and what is open
      on it alone. */
  lemma QuietReconfiguration(w: World, step: Step, i: nat)
    requires Formed(w) && Enabled(w, step) && i < |w.pool.members| && ConservedAt(w, i)
    requires step.AddOne? || (step.ReplaceAll? && step.n == 0)
    ensures var v := Apply(w, step); i < |v.pool.members| == |v.accounts| && ConservedAt(v, i)
  {
    hide Conserved, WellFormed;
    match step
    case AddOne(id) =>
      AdditionKeepsRecord(w, id, i);
      AddOpensNothing(w, id);
    case ReplaceAll(_, _) =>
  }

  lemma UntouchedBooks(w: World, step: Step, i: nat)
    requires Formed(w) && Enabled(w, step) && !Reconfigures(step) && !step.GuardCheck?
    requires i < |w.pool.members| && Touched(w, step) != i && ConservedAt(w, i)
    ensures var v := Apply(w, step); i < |v.pool.members| == |v.accounts| && ConservedAt(v, i)
  {
    hide Conserved, Apply, WellFormed, Picked;
    InPlace(w, step);
    OpenAfter(w, step);
    var v, t, d := Apply(w, step), TicketAt(w.pool, i), PendingAt(w.pool, i);
    assert v.dials[t] == w.dials[t] && v.guards[t] == w.guards[t] && v.drops[d] == w.drops[d];
  }

  lemma CheckBooks(w: World, t: Ticket, i: nat)
    requires Formed(w) && t in w.guards && i < |w.pool.members| && ConservedAt(w, i)
    ensures ConservedAt(AfterCheck(w, t), i)
  {
    hide Conserved, WellFormed;
    var u, d := TicketAt(w.pool, i), PendingAt(w.pool, i);
    if t == u {
      ConservedMove(w.pool.members[i].metrics, w.accounts[i], w.dials[t], w.guards[t], w.drops[d]);
    }
  }

  lemma BeginBooks(w: World, draw: nat)
    requires Formed(w) && w.pool.members != [] && ConservedAt(w, Picked(w, draw).1)
    ensures var v, i := AfterBegin(w, draw), Picked(w, draw).1;
            i < |v.pool.members| == |v.accounts|
            && (ConservedAt(v, i) <==> w.pool.members[i].metrics.activeConnections < U32_MAX)
  {
    hide Conserved, WellFormed, Picked;
    var i := Picked(w, draw).1;
    var t := TicketAt(w.pool, i);
    ConservedBegin(w.pool.members[i].metrics, w.accounts[i], w.dials[t], w.guards[t], w.drops[PendingAt(w.pool, i)]);
  }

  lemma EndBooks(w: World, t: Ticket, cleared: bool)
    requires Formed(w) && t in w.dials && Current(w, t) && ConservedAt(w, t.index)
    ensures var v := AfterOk(w, t); t.index < |v.pool.members| == |v.accounts| && ConservedAt(v, t.index)
    ensures var v := AfterErr(w, t); t.index < |v.pool.members| == |v.accounts| && ConservedAt(v, t.index)
    ensures var v := AfterCancel(w, t, cleared); t.index < |v.pool.members| == |v.accounts| && ConservedAt(v, t.index)
  {
    hide Conserved, WellFormed;
    var i := t.index;
    assert t == TicketAt(w.pool, i);
    ConservedEnd(w.pool.members[i].metrics, w.accounts[i], w.dials[t], w.guards[t], w.drops[PendingAt(w.pool, i)]);
  }

  lemma WriteBooks(w: World, d: Pending, lockFree: bool)
    requires Formed(w) && d in w.drops && d.index < |w.pool.members| && ConservedAt(w, d.index)
    ensures var v, i := AfterWrite(w, d, lockFree), d.index;
            i < |v.pool.members| == |v.accounts| && (ConservedAt(v, i) <==> TameFor(w, GuardWrite(d, lockFree), i))
  {
    hide Conserved, WellFormed;
    var i, m := d.index, w.pool.members[d.index].metrics;
    var t, own := TicketAt(w.pool, i), PendingAt(w.pool, i);
    if d == own {
      ConservedDrop(m, w.accounts[i], w.dials[t], w.guards[t], w.drops[d]);
    } else {
      ConservedStray(m, w.accounts[i], w.dials[t], w.guards[t], w.drops[own]);
    }
  }

  lemma MarkBooks(w: World, step: Step, i: nat)
    requires Formed(w) && Enabled(w, step) && i < |w.pool.members| && ConservedAt(w, i)
    requires step == DrainAt(i) || step == UndrainAt(i)
    ensures var v := Apply(w, step); i < |v.pool.members| == |v.accounts| && ConservedAt(v, i)
  {
    hide Conserved, WellFormed;
    var t := TicketAt(w.pool, i);
    ConservedMove(w.pool.members[i].metrics, w.accounts[i], w.dials[t], w.guards[t], w.drops[PendingAt(w.pool, i)]);
  }

  /** Every enabled step that leaves member `i` in the pool keeps its books exactly when it is
      tame for it, whatever state the others' books are in. */
  lemma MemberStepIff(w: World, step: Step, i: nat)
    requires Formed(w) && Enabled(w, step) && DialsCurrent(w)
    requires i < |w.pool.members| && Keeps(step, i) && ConservedAt(w, i)
    ensures var v, j := Apply(w, step), IndexAfter(step, i);
            j < |v.pool.members| == |v.accounts| && (ConservedAt(v, j) <==> TameFor(w, step, i))
  {
    hide ConservedAt, Picked, WellFormed, AfterBegin, AfterOk, AfterErr, AfterCancel, AfterWrite, AfterAdd, AfterRemove;
    if step.GuardCheck? {
      CheckBooks(w, step.t, i);
    } else if !Reconfigures(step) && Touched(w, step) != i {
      UntouchedBooks(w, step, i);
    } else {
      match step
      case BeginDial(draw) => BeginBooks(w, draw);
      case DialOk(t) => EndBooks(w, t, false);
      case DialErr(t) => EndBooks(w, t, false);
      case CancelDial(t, cleared) => EndBooks(w, t, cleared);
      case GuardWrite(d, lockFree) => WriteBooks(w, d, lockFree);
      case RemoveAt(k) => RemovalBooks(w, k, i);
      case AddOne(_) => QuietReconfiguration(w, step, i);
      case ReplaceAll(_, _) => QuietReconfiguration(w, step, i);
      case _ => MarkBooks(w, step, i);
    }
  }

  // ---------------------------------------------------------------------- runs

  ghost predicate TameForAll(w: World, steps: seq<Step>, i: nat)
    requires Formed(w) && Possible(w, steps)
    decreases |steps|
  {
    steps == [] ||
    (RunStep(w, steps);
     && i < |w.pool.members| && TameFor(w, steps[0], i)
     && TameForAll(Apply(w, steps[0]), steps[1..], IndexAfter(steps[0], i)))
  }

  /** The books of the member that starts at `i` balance in every world the run visits. */
  ghost predicate BalancedThroughout(w: World, steps: seq<Step>, i: nat)
    requires Formed(w) && Possible(w, steps)
    decreases |steps|
  {
    && i < |w.pool.members| && ConservedAt(w, i)
    && (steps == [] ||
        (RunStep(w, steps); BalancedThroughout(Apply(w, steps[0]), steps[1..], IndexAfter(steps[0], i))))
  }

  /** Over every run that keeps the backend, its books balance in every world exactly when
      every step is tame for it. */
  lemma {:induction false} MemberBooksIff(w: World, steps: seq<Step>, i: nat)
    requires Formed(w) && Possible(w, steps) && DialsCurrent(w)
    requires i < |w.pool.members| && ConservedAt(w, i) && KeepsAll(steps, i)
    ensures BalancedThroughout(w, steps, i) <==> TameForAll(w, steps, i)
    ensures TameForAll(w, steps, i) ==>
              var v, j := Run(w, steps), IndexAfterAll(steps, i); j < |v.pool.members| && ConservedAt(v, j)
    decreases |steps|
  {
    hide Apply, Enabled, Formed, DialsCurrent, ConservedAt, TameFor;
    if steps == [] {
    } else {
      RunStep(w, steps);
      MemberStepIff(w, steps[0], i);
      DialsCurrentStep(w, steps[0]);
      var v, j := Apply(w, steps[0]), IndexAfter(steps[0], i);
      if ConservedAt(v, j) { MemberBooksIff(v, steps[1..], j); }
    }
  }
}
