/** Concurrent dials, guards and reconfigurations as a state machine. Each step is one
    critical section of the balancer, so every interleaving is a sequence of steps. */
module Machine {
  import opened Metrics
  import opened Pools
  import opened Strategies
  import Health
  import Selection

  /** A dial or guard: the index and generation it carries, and the backend it is really on. */
  datatype Ticket = Ticket(index: nat, gen: U64, backend: nat)

  /** A guard past its generation check: all that is left is the index it will decrement. */
  datatype Pending = Pending(index: nat, backend: nat)

  /** What has happened on one backend since it joined the pool. */
  datatype Tally = Tally(
    began: nat,       // dials counted in
    succeeded: nat,   // dials that produced a guard
    failed: nat,      // dials counted as errors
    cancelled: nat,   // dials dropped before either
    closed: nat,      // guards whose drop was counted
    contended: nat,   // guards dropped while the lock was held
    stranded: nat)    // guards overtaken by a generation change

  datatype Account = Account(seed: TunnelMetrics, tally: Tally)

  const BLANK := Tally(0, 0, 0, 0, 0, 0, 0)

  /** `accounts` is history only: no step reads it. */
  datatype World = World(
    pool: Pool,
    strategy: Strategy,
    dials: multiset<Ticket>,    // counted in, outcome not yet recorded
    reports: multiset<nat>,     // errors not yet reported to the strategy
    guards: multiset<Ticket>,   // live guards
    drops: multiset<Pending>,   // guards past the generation check, before the decrement
    accounts: seq<Account>,
    nextBackend: nat)

  datatype Step =
    | BeginDial(draw: nat)
    | DialOk(t: Ticket)
    | DialErr(t: Ticket)
    | CancelDial(t: Ticket, cleared: bool)
    | ReportErr(idx: nat)
    | CancelReport(idx: nat)
    | GuardCheck(t: Ticket)
    | GuardWrite(d: Pending, lockFree: bool)
    | AddOne(id: Option<string>)
    | RemoveAt(i: nat)
    | ReplaceAll(n: nat, newStrategy: Option<Strategy>)
    | DrainAt(i: nat)
    | UndrainAt(i: nat)
    | SetStrategy(s: Strategy)

  // ------------------------------------------------------------------- steps

  /** Reconfiguration borrows the balancer exclusively, so no dial is under way. Guards and
      pending drops do not hold a borrow. */
  ghost predicate Exclusive(w: World) { w.dials == multiset{} && w.reports == multiset{} }

  ghost predicate Enabled(w: World, step: Step) {
    match step
    case BeginDial(_) => w.pool.members != []
    case DialOk(t) => t in w.dials
    case DialErr(t) => t in w.dials
    case CancelDial(t, _) => t in w.dials
    case ReportErr(idx) => idx in w.reports
    case CancelReport(idx) => idx in w.reports
    case GuardCheck(t) => t in w.guards
    case GuardWrite(d, _) => d in w.drops
    case ReplaceAll(_, s) => Exclusive(w) && (s.Some? ==> WellFormed(s.value))
    case SetStrategy(s) => Exclusive(w) && WellFormed(s)
    case _ => Exclusive(w)
  }

  ghost function Picked(w: World, draw: nat): (r: (Strategy, nat))
    requires WellFormed(w.strategy) && w.pool.members != []
    ensures WellFormed(r.0) && r.1 < |w.pool.members|
  {
    PickStep(w.strategy, MetricsOf(w.pool), draw)
  }

  /** The ticket of a dial on member `i` at the present generation. */
  function TicketAt(p: Pool, i: nat): Ticket
    requires i < |p.members|
  {
    Ticket(i, p.generation, p.members[i].backend)
  }

  /** A pending decrement of member `i`. */
  function PendingAt(p: Pool, i: nat): Pending
    requires i < |p.members|
  {
    Pending(i, p.members[i].backend)
  }

  /** What every run keeps, whatever it does: enough for each step to make sense. */
  ghost predicate Formed(w: World) {
    && WellFormed(w.strategy)
    && |w.accounts| == |w.pool.members|
    && (forall t :: t in w.dials ==> t.index < |w.pool.members|)
  }

  function Noted(accounts: seq<Account>, i: nat, t: Tally): seq<Account>
    requires i < |accounts|
  {
    accounts[i := accounts[i].(tally := t)]
  }

  ghost function AfterBegin(w: World, draw: nat): World
    requires Formed(w) && w.pool.members != []
  {
    var (s, i) := Picked(w, draw);
    var tally := w.accounts[i].tally;
    w.(pool := Begin(w.pool, i), strategy := s,
       dials := w.dials + multiset{TicketAt(w.pool, i)},
       accounts := Noted(w.accounts, i, tally.(began := tally.began + 1)))
  }

  ghost function AfterOk(w: World, t: Ticket): World
    requires Formed(w) && t in w.dials
  {
    var tally := w.accounts[t.index].tally;
    w.(pool := Succeed(w.pool, t.index),
       dials := w.dials - multiset{t}, guards := w.guards + multiset{t},
       accounts := Noted(w.accounts, t.index, tally.(succeeded := tally.succeeded + 1)))
  }

  ghost function AfterErr(w: World, t: Ticket): World
    requires Formed(w) && t in w.dials
  {
    var tally := w.accounts[t.index].tally;
    w.(pool := Fail(w.pool, t.index),
       dials := w.dials - multiset{t}, reports := w.reports + multiset{t.index},
       accounts := Noted(w.accounts, t.index, tally.(failed := tally.failed + 1)))
  }

  /** The dial's future is dropped; `cleared` says whether the success handler had already
      reset the error count. */
  ghost function AfterCancel(w: World, t: Ticket, cleared: bool): World
    requires Formed(w) && t in w.dials
  {
    var tally := w.accounts[t.index].tally;
    w.(pool := if cleared then Succeed(w.pool, t.index) else w.pool,
       dials := w.dials - multiset{t},
       accounts := Noted(w.accounts, t.index, tally.(cancelled := tally.cancelled + 1)))
  }

  ghost function AfterCheck(w: World, t: Ticket): World {
    w.(guards := w.guards - multiset{t},
       drops := if t.gen == w.pool.generation then w.drops + multiset{Pending(t.index, t.backend)} else w.drops)
  }

  /** The decrement goes by index alone; the account noted is that of the guard's own backend. */
  ghost function AfterWrite(w: World, d: Pending, lockFree: bool): World
    requires Formed(w)
  {
    w.(pool := if lockFree then Release(w.pool, d.index) else w.pool,
       drops := w.drops - multiset{d},
       accounts := if !Holds(w.pool, d.index, d.backend) then w.accounts
                   else
                     var tally := w.accounts[d.index].tally;
                     Noted(w.accounts, d.index,
                           if lockFree then tally.(closed := tally.closed + 1)
                           else tally.(contended := tally.contended + 1)))
  }

  ghost function AfterAdd(w: World, id: Option<string>): World {
    w.(pool := Add(w.pool, w.nextBackend, id), nextBackend := w.nextBackend + 1,
       accounts := w.accounts + [Account(DEFAULT_METRICS, BLANK)])
  }

  /** A generation change strands the live guards of every surviving member. */
  ghost function Stranded(w: World, k: nat): Account
    requires k < |w.accounts| == |w.pool.members|
  {
    var tally := w.accounts[k].tally;
    w.accounts[k].(tally := tally.(stranded := tally.stranded + w.guards[TicketAt(w.pool, k)]))
  }

  ghost function AfterRemove(w: World, i: nat): World
    requires Formed(w)
  {
    if i >= |w.pool.members| then w
    else
      w.(pool := Remove(w.pool, i),
         accounts := seq(|w.accounts| - 1, k requires 0 <= k < |w.accounts| - 1 =>
                           Stranded(w, if k < i then k else k + 1)))
  }

  ghost function AfterReplace(w: World, n: nat, s: Option<Strategy>): World {
    if n == 0 then w
    else
      w.(pool := Replace(w.pool, seq(n, k => w.nextBackend + k)), nextBackend := w.nextBackend + n,
         strategy := if s.Some? then s.value else w.strategy,
         accounts := seq(n, _ => Account(DEFAULT_METRICS, BLANK)))
  }

  ghost function Apply(w: World, step: Step): World
    requires Formed(w) && Enabled(w, step)
  {
    match step
    case BeginDial(draw) => AfterBegin(w, draw)
    case DialOk(t) => AfterOk(w, t)
    case DialErr(t) => AfterErr(w, t)
    case CancelDial(t, cleared) => AfterCancel(w, t, cleared)
    case ReportErr(idx) => w.(strategy := ReportError(w.strategy, idx), reports := w.reports - multiset{idx})
    case CancelReport(idx) => w.(reports := w.reports - multiset{idx})
    case GuardCheck(t) => AfterCheck(w, t)
    case GuardWrite(d, lockFree) => AfterWrite(w, d, lockFree)
    case AddOne(id) => AfterAdd(w, id)
    case RemoveAt(i) => AfterRemove(w, i)
    case ReplaceAll(n, s) => AfterReplace(w, n, s)
    case DrainAt(i) => w.(pool := Drain(w.pool, i))
    case UndrainAt(i) => w.(pool := Undrain(w.pool, i))
    case SetStrategy(s) => w.(strategy := s)
  }

  // ------------------------------------------------------------------ limits

  /** No live guard is stamped with the generation a bump would bring. */
  ghost predicate NextGenerationFree(w: World) {
    forall t :: t in w.guards ==> t.gen != IncWrap64(w.pool.generation)
  }

  /** No pending decrement goes astray when member `i` is removed. */
  ghost predicate DropsSurviveRemoval(w: World, i: nat) {
    forall d :: d in w.drops ==>
      d.index < i || d.index == i == |w.pool.members| - 1 || |w.pool.members| <= d.index
  }

  /** When a step keeps the books: the picked counter is below its maximum, no pending
      decrement is misdirected, and no stale guard comes back to life. */
  ghost predicate Tame(w: World, step: Step)
    requires Formed(w) && Enabled(w, step)
  {
    match step
    case BeginDial(draw) => w.pool.members[Picked(w, draw).1].metrics.activeConnections < U32_MAX
    case AddOne(_) => forall d :: d in w.drops ==> d.index != |w.pool.members|
    case RemoveAt(i) => i < |w.pool.members| ==> DropsSurviveRemoval(w, i) && NextGenerationFree(w)
    case ReplaceAll(n, _) => n > 0 ==> (forall d :: d in w.drops ==> n <= d.index) && NextGenerationFree(w)
    case _ => true
  }

  // -------------------------------------------------------------- invariants

  /** Member `index` is the given backend. */
  predicate Holds(p: Pool, index: nat, backend: nat) {
    index < |p.members| && p.members[index].backend == backend
  }

  predicate Names(p: Pool, t: Ticket) { Holds(p, t.index, t.backend) }

  /** A decrement by `d` would hit its own backend, or nothing if that backend has left. */
  ghost predicate Right(p: Pool, d: Pending) {
    if d.index < |p.members| then p.members[d.index].backend == d.backend
    else forall k :: 0 <= k < |p.members| ==> p.members[k].backend != d.backend
  }

  ghost predicate Distinct(w: World) {
    && (forall i :: 0 <= i < |w.pool.members| ==> w.pool.members[i].backend < w.nextBackend)
    && (forall i, j :: 0 <= i < j < |w.pool.members| ==> w.pool.members[i].backend != w.pool.members[j].backend)
  }

  /** Guard identity: whatever carries the present generation names its own backend, and
      every pending decrement is right. */
  ghost predicate Shaped(w: World) {
    && WellFormed(w.strategy)
    && |w.accounts| == |w.pool.members|
    && Distinct(w)
    && (forall t :: t in w.dials ==> t.gen == w.pool.generation && Names(w.pool, t))
    && (forall d :: d in w.drops ==> d.backend < w.nextBackend && Right(w.pool, d))
    && (forall t :: t in w.guards ==> t.backend < w.nextBackend && (t.gen == w.pool.generation ==> Names(w.pool, t)))
  }

  function Wrap64(n: nat): U64 { n % 0x1_0000_0000_0000_0000 }

  function Leaked(t: Tally): nat { t.cancelled + t.contended + t.stranded }

  /** Conservation on one backend with the given numbers of dials, live guards and drops. */
  predicate Conserved(m: TunnelMetrics, a: Account, dialling: nat, live: nat, dropping: nat) {
    && m.activeConnections == a.seed.activeConnections + dialling + live + dropping + Leaked(a.tally)
    && a.tally.began == a.tally.succeeded + a.tally.failed + a.tally.cancelled + dialling
    && a.tally.succeeded == a.tally.closed + a.tally.contended + a.tally.stranded + live + dropping
    && m.totalDials == Wrap64(a.seed.totalDials + a.tally.began)
    && m.totalErrors == Min(U64_MAX, a.seed.totalErrors + a.tally.failed)
    && m.rtt == a.seed.rtt
  }

  ghost predicate ConservedAt(w: World, i: nat)
    requires i < |w.pool.members| == |w.accounts|
  {
    var t := TicketAt(w.pool, i);
    Conserved(w.pool.members[i].metrics, w.accounts[i], w.dials[t], w.guards[t], w.drops[PendingAt(w.pool, i)])
  }

  ghost predicate Good(w: World) {
    Shaped(w) && forall i :: 0 <= i < |w.pool.members| ==> ConservedAt(w, i)
  }

  // ------------------------------------------------- preservation, one backend

  lemma ConservedBegin(m: TunnelMetrics, a: Account, d: nat, l: nat, p: nat)
    requires Conserved(m, a, d, l, p)
    ensures Conserved(Selection.Counted(m), a.(tally := a.tally.(began := a.tally.began + 1)), d + 1, l, p)
            <==> m.activeConnections < U32_MAX
  {
    WrapStep(a.seed.totalDials + a.tally.began);
  }

  lemma WrapStep(n: nat)
    ensures Wrap64(n + 1) == IncWrap64(Wrap64(n))
  {}

  lemma ConservedEnd(m: TunnelMetrics, a: Account, d: nat, l: nat, p: nat)
    requires Conserved(m, a, d, l, p) && d > 0
    ensures m.activeConnections > 0
    ensures Conserved(Health.Recorded(m, true), a.(tally := a.tally.(succeeded := a.tally.succeeded + 1)), d - 1, l + 1, p)
    ensures Conserved(Released(Health.Recorded(m, false)), a.(tally := a.tally.(failed := a.tally.failed + 1)), d - 1, l, p)
    ensures Conserved(m, a.(tally := a.tally.(cancelled := a.tally.cancelled + 1)), d - 1, l, p)
    ensures Conserved(Health.Recorded(m, true), a.(tally := a.tally.(cancelled := a.tally.cancelled + 1)), d - 1, l, p)
  {}

  lemma ConservedDrop(m: TunnelMetrics, a: Account, d: nat, l: nat, p: nat)
    requires Conserved(m, a, d, l, p) && p > 0
    ensures m.activeConnections > 0
    ensures Conserved(Released(m), a.(tally := a.tally.(closed := a.tally.closed + 1)), d, l, p - 1)
    ensures Conserved(m, a.(tally := a.tally.(contended := a.tally.contended + 1)), d, l, p - 1)
  {}

  lemma ConservedMove(m: TunnelMetrics, a: Account, d: nat, l: nat, p: nat)
    requires Conserved(m, a, d, l, p)
    ensures l > 0 ==> Conserved(m, a, d, l - 1, p + 1)
    ensures forall e: U32 :: Conserved(m.(recentErrors := e), a, d, l, p)
  {}

  /** After a generation change the books balance exactly when no guard is revived. */
  lemma ConservedStrand(m: TunnelMetrics, a: Account, l: nat, p: nat, l': nat)
    requires Conserved(m, a, 0, l, p)
    ensures Conserved(m, a.(tally := a.tally.(stranded := a.tally.stranded + l)), 0, l', p) <==> l' == 0
  {}

  lemma ConservedFresh(a: Account)
    requires a.tally == BLANK
    ensures Conserved(a.seed, a, 0, 0, 0)
  {
    var Tally(began, succeeded, failed, cancelled, closed, contended, stranded) := a.tally;
    assert began == succeeded == failed == cancelled == closed == contended == stranded == 0;
    ConservedAtZero(a);
  }

  lemma ConservedAtZero(a: Account)
    requires a.tally.began == a.tally.failed == a.tally.succeeded == a.tally.closed == Leaked(a.tally) == 0
    ensures Conserved(a.seed, a, 0, 0, 0)
  {}

  // --------------------------------------------------- preservation, the world

  lemma GoodIsShaped(w: World)
    requires Good(w)
    ensures Shaped(w) && Formed(w) && WellFormed(w.strategy)
  {}

  /** Guard identity carries over while the members stay in place. */
  lemma ShapeCarries(w: World, v: World)
    requires Shaped(w) && WellFormed(v.strategy) && v.nextBackend == w.nextBackend
    requires |v.accounts| == |w.accounts| && |v.pool.members| == |w.pool.members|
    requires v.pool.generation == w.pool.generation
    requires forall k :: 0 <= k < |w.pool.members| ==> v.pool.members[k].backend == w.pool.members[k].backend
    requires forall t :: t in v.dials ==> t in w.dials || Current(w, t)
    requires forall t :: t in v.guards ==> t in w.guards || Current(w, t)
    requires forall d :: d in v.drops ==> d in w.drops || Holds(w.pool, d.index, d.backend)
    ensures Shaped(v)
  {}

  predicate Current(w: World, t: Ticket) { t.gen == w.pool.generation && Names(w.pool, t) }

  lemma TicketCurrent(w: World, t: Ticket)
    requires Good(w)
    requires t in w.dials || (t in w.guards && t.gen == w.pool.generation)
    ensures Current(w, t) && t == TicketAt(w.pool, t.index)
    ensures Shaped(w) && Formed(w)
    ensures ConservedAt(w, t.index)
  {
    hide Conserved;
  }

  /** A step that touches one member and what is open on it keeps everything, if it keeps
      conservation on that member. */
  lemma TouchKeeps(w: World, v: World, i: nat, m: TunnelMetrics, a: Account)
    requires Good(w) && i < |w.pool.members| == |w.accounts| && WellFormed(v.strategy)
    requires v == w.(pool := Set(w.pool, i, m), accounts := w.accounts[i := a], strategy := v.strategy,
                     dials := v.dials, reports := v.reports, guards := v.guards, drops := v.drops)
    requires SameBut(w.dials, v.dials, TicketAt(w.pool, i)) && SameBut(w.guards, v.guards, TicketAt(w.pool, i))
    requires SameDropsBut(w.drops, v.drops, PendingAt(w.pool, i))
    requires var t := TicketAt(w.pool, i);
             Conserved(m, a, v.dials[t], v.guards[t], v.drops[PendingAt(w.pool, i)])
    ensures Good(v)
  {
    hide Conserved;
    ShapeCarries(w, v);
    hide Shaped;
    forall k | 0 <= k < |v.pool.members| ensures ConservedAt(v, k) {
      assert TicketAt(v.pool, k) == TicketAt(w.pool, k) && PendingAt(v.pool, k) == PendingAt(w.pool, k);
      if k != i { assert ConservedAt(w, k); }
    }
  }

  /** The same multiplicities everywhere except at `t`. */
  ghost predicate SameBut(a: multiset<Ticket>, b: multiset<Ticket>, t: Ticket) {
    forall u: Ticket :: u != t ==> a[u] == b[u]
  }

  ghost predicate SameDropsBut(a: multiset<Pending>, b: multiset<Pending>, d: Pending) {
    forall e: Pending :: e != d ==> a[e] == b[e]
  }

  /** Beginning a dial keeps conservation exactly when the picked counter is not at its limit. */
  lemma BeginKeepsIff(w: World, draw: nat)
    requires Good(w) && w.pool.members != []
    ensures Formed(w)
    ensures Good(AfterBegin(w, draw))
            <==> w.pool.members[Picked(w, draw).1].metrics.activeConnections < U32_MAX
  {
    hide Conserved, Picked;
    var i, v := Picked(w, draw).1, AfterBegin(w, draw);
    var t, d, m := TicketAt(w.pool, i), PendingAt(w.pool, i), w.pool.members[i].metrics;
    assert ConservedAt(w, i);
    ConservedBegin(m, w.accounts[i], w.dials[t], w.guards[t], w.drops[d]);
    if m.activeConnections < U32_MAX {
      TouchKeeps(w, v, i, Selection.Counted(m), v.accounts[i]);
    } else {
      assert !ConservedAt(v, i);
    }
  }

  lemma OkKeeps(w: World, t: Ticket)
    requires Good(w) && t in w.dials
    ensures Formed(w) && Good(AfterOk(w, t))
  {
    TicketCurrent(w, t);
    hide Good, Conserved, Shaped, WellFormed;
    var i, m, v := t.index, w.pool.members[t.index].metrics, AfterOk(w, t);
    ConservedEnd(m, w.accounts[i], w.dials[t], w.guards[t], w.drops[PendingAt(w.pool, i)]);
    TouchKeeps(w, v, i, Health.Recorded(m, true), v.accounts[i]);
  }

  lemma ErrKeeps(w: World, t: Ticket)
    requires Good(w) && t in w.dials
    ensures Formed(w) && Good(AfterErr(w, t))
  {
    TicketCurrent(w, t);
    hide Good, Conserved, Shaped, WellFormed;
    var i, m, v := t.index, w.pool.members[t.index].metrics, AfterErr(w, t);
    ConservedEnd(m, w.accounts[i], w.dials[t], w.guards[t], w.drops[PendingAt(w.pool, i)]);
    TouchKeeps(w, v, i, Released(Health.Recorded(m, false)), v.accounts[i]);
  }

  lemma CancelKeeps(w: World, t: Ticket, cleared: bool)
    requires Good(w) && t in w.dials
    ensures Formed(w) && Good(AfterCancel(w, t, cleared))
  {
    TicketCurrent(w, t);
    hide Good, Conserved, Shaped, WellFormed;
    var i, m, v := t.index, w.pool.members[t.index].metrics, AfterCancel(w, t, cleared);
    ConservedEnd(m, w.accounts[i], w.dials[t], w.guards[t], w.drops[PendingAt(w.pool, i)]);
    TouchKeeps(w, v, i, if cleared then Health.Recorded(m, true) else m, v.accounts[i]);
  }

  lemma CheckKeeps(w: World, t: Ticket)
    requires Good(w) && t in w.guards
    ensures Good(AfterCheck(w, t))
  {
    var v := AfterCheck(w, t);
    if t.gen == w.pool.generation {
      TicketCurrent(w, t);
      hide Good, Conserved, Shaped, WellFormed;
      var i, m := t.index, w.pool.members[t.index].metrics;
      ConservedMove(m, w.accounts[i], w.dials[t], w.guards[t], w.drops[PendingAt(w.pool, i)]);
      TouchKeeps(w, v, i, m, w.accounts[i]);
    } else {
      hide Conserved;
      ShapeCarries(w, v);
      forall k | 0 <= k < |v.pool.members| ensures ConservedAt(v, k) { assert ConservedAt(w, k); }
    }
  }

  lemma WriteKeeps(w: World, d: Pending, lockFree: bool)
    requires Good(w) && d in w.drops
    ensures Formed(w) && Good(AfterWrite(w, d, lockFree))
  {
    hide Conserved;
    GoodIsShaped(w);
    var v := AfterWrite(w, d, lockFree);
    if d.index < |w.pool.members| {
      assert d == PendingAt(w.pool, d.index);
      WriteInRange(w, d.index, lockFree);
    } else {
      ShapeCarries(w, v);
      forall k | 0 <= k < |v.pool.members| ensures ConservedAt(v, k) { assert ConservedAt(w, k); }
    }
  }

  lemma WriteInRange(w: World, i: nat, lockFree: bool)
    requires Good(w) && i < |w.pool.members| && PendingAt(w.pool, i) in w.drops
    ensures Formed(w) && Good(AfterWrite(w, PendingAt(w.pool, i), lockFree))
  {
    GoodIsShaped(w);
    assert ConservedAt(w, i);
    hide Good, Conserved, Shaped, WellFormed;
    var t, d, m := TicketAt(w.pool, i), PendingAt(w.pool, i), w.pool.members[i].metrics;
    var v := AfterWrite(w, d, lockFree);
    ConservedDrop(m, w.accounts[i], w.dials[t], w.guards[t], w.drops[d]);
    TouchKeeps(w, v, i, if lockFree then Released(m) else m, v.accounts[i]);
  }

  /** Adding a backend keeps the books exactly when no decrement is pending on its index. */
  lemma AddKeepsIff(w: World, id: Option<string>)
    requires Good(w) && Exclusive(w)
    ensures Good(AfterAdd(w, id)) <==> forall d :: d in w.drops ==> d.index != |w.pool.members|
  {
    hide Conserved;
    var v, n := AfterAdd(w, id), |w.pool.members|;
    if d :| d in w.drops && d.index == n {
      assert d.backend < w.nextBackend && !Right(v.pool, d);
    } else {
      AddShaped(w, id);
      ConservedFresh(Account(DEFAULT_METRICS, BLANK));
      assert TicketAt(v.pool, n) !in w.guards && PendingAt(v.pool, n) !in w.drops;
      hide Shaped;
      forall k | 0 <= k < n ensures ConservedAt(v, k) { assert ConservedAt(w, k); }
    }
  }

  lemma AddShaped(w: World, id: Option<string>)
    requires Shaped(w) && Exclusive(w) && forall d :: d in w.drops ==> d.index != |w.pool.members|
    ensures Shaped(AfterAdd(w, id))
  {
    var v := AfterAdd(w, id);
    forall d | d in v.drops ensures Right(v.pool, d) { assert Right(w.pool, d) && d.backend < w.nextBackend; }
  }

  /** Where member `k` of the pool without member `i` was before. */
  function Past(i: nat, k: nat): nat { if k < i then k else k + 1 }

  /** Removing a member leaves a pending decrement right exactly when its index comes before
      the removed one, or it was pending on the last member and that is removed. */
  lemma RemovalRaceIff(p: Pool, d: Pending, i: nat)
    requires i < |p.members| && Right(p, d)
    requires forall k, l :: 0 <= k < l < |p.members| ==> p.members[k].backend != p.members[l].backend
    ensures Right(Remove(p, i), d)
            <==> d.index < i || d.index == i == |p.members| - 1 || |p.members| <= d.index
  {
    var q, n := Remove(p, i), |p.members|;
    assert forall k :: 0 <= k < n - 1 ==> q.members[k] == p.members[Past(i, k)];
    if i < d.index == n - 1 { assert q.members[n - 2].backend == d.backend; }
  }

  /** Replacing the pool leaves a pending decrement right exactly when its index is past the
      end of the new pool. */
  lemma ReplacementRaceIff(p: Pool, d: Pending, backends: seq<nat>)
    requires backends != [] && forall k :: 0 <= k < |backends| ==> backends[k] != d.backend
    ensures Right(Replace(p, backends), d) <==> |backends| <= d.index
  {}

  /** Removing a member keeps the books exactly when every pending decrement stays right and
      no stale guard carries the next generation. */
  lemma RemoveKeepsIff(w: World, i: nat)
    requires Good(w) && Exclusive(w) && i < |w.pool.members|
    ensures Formed(w)
    ensures Good(AfterRemove(w, i)) <==> DropsSurviveRemoval(w, i) && NextGenerationFree(w)
  {
    hide Conserved;
    var v := AfterRemove(w, i);
    forall d | d in w.drops
      ensures Right(v.pool, d)
              <==> d.index < i || d.index == i == |w.pool.members| - 1 || |w.pool.members| <= d.index
    {
      RemovalRaceIff(w.pool, d, i);
    }
    if d :| d in w.drops && !Right(v.pool, d) {
    } else if t :| t in w.guards && t.gen == IncWrap64(w.pool.generation) {
      if Names(v.pool, t) { RevivedBreaks(w, i, t); }
    } else {
      RemoveShaped(w, i);
      forall k | 0 <= k < |v.pool.members| ensures ConservedAt(v, k) { RemoveConserves(w, i, k); }
    }
  }

  lemma RemoveShaped(w: World, i: nat)
    requires Shaped(w) && Exclusive(w) && i < |w.pool.members|
    requires NextGenerationFree(w) && forall d :: d in w.drops ==> Right(Remove(w.pool, i), d)
    ensures Shaped(AfterRemove(w, i))
  {}

  /** Conservation on a survivor, when the pending decrements survive. */
  lemma RemoveConserves(w: World, i: nat, k: nat)
    requires Good(w) && Exclusive(w) && i < |w.pool.members| && k < |w.pool.members| - 1
    requires DropsSurviveRemoval(w, i)
    ensures Formed(w)
    ensures var v := AfterRemove(w, i);
            |v.accounts| == |v.pool.members| && (ConservedAt(v, k) <==> w.guards[TicketAt(v.pool, k)] == 0)
  {
    hide Conserved;
    var v, l := AfterRemove(w, i), Past(i, k);
    var t, t', d, d' := TicketAt(w.pool, l), TicketAt(v.pool, k), PendingAt(w.pool, l), PendingAt(v.pool, k);
    assert ConservedAt(w, l) && v.pool.members[k] == w.pool.members[l] && v.accounts[k] == Stranded(w, l);
    assert w.drops[d'] == w.drops[d] by {
      if k >= i {
        assert d !in w.drops;
        assert w.pool.members[k].backend != d'.backend;
      }
    }
    ConservedStrand(w.pool.members[l].metrics, w.accounts[l], w.guards[t], w.drops[d], w.guards[t']);
  }

  lemma RevivedBreaks(w: World, i: nat, t: Ticket)
    requires Good(w) && Exclusive(w) && i < |w.pool.members| && DropsSurviveRemoval(w, i)
    requires t in w.guards && t.gen == IncWrap64(w.pool.generation) && Names(Remove(w.pool, i), t)
    ensures Formed(w) && !Good(AfterRemove(w, i))
  {
    hide Conserved, Shaped;
    GoodIsShaped(w);
    var v := AfterRemove(w, i);
    RemoveConserves(w, i, t.index);
    assert t == TicketAt(v.pool, t.index) && w.guards[t] > 0;
  }

  /** Replacing the pool keeps the books exactly when every pending index is past the end of
      the new pool and no stale guard carries the next generation. */
  lemma ReplaceKeepsIff(w: World, n: nat, s: Option<Strategy>)
    requires Good(w) && Exclusive(w) && n > 0 && (s.Some? ==> WellFormed(s.value))
    ensures Good(AfterReplace(w, n, s))
            <==> (forall d :: d in w.drops ==> n <= d.index) && NextGenerationFree(w)
  {
    hide Conserved;
    var v := AfterReplace(w, n, s);
    if d :| d in w.drops && d.index < n {
      assert d.backend < w.nextBackend && !Right(v.pool, d);
    } else if t :| t in w.guards && t.gen == IncWrap64(w.pool.generation) {
      assert t.backend < w.nextBackend && !Names(v.pool, t);
    } else {
      ConservedFresh(Account(DEFAULT_METRICS, BLANK));
      forall d | d in w.drops ensures Right(v.pool, d) { assert d.backend < w.nextBackend; }
      forall k | 0 <= k < |v.pool.members| ensures ConservedAt(v, k) {
        assert TicketAt(v.pool, k) !in w.guards && PendingAt(v.pool, k) !in w.drops;
      }
    }
  }

  lemma QuietKeeps(w: World, v: World)
    requires Good(w) && WellFormed(v.strategy)
    requires v == w.(strategy := v.strategy, reports := v.reports, pool := v.pool)
    requires v.pool.generation == w.pool.generation && |v.pool.members| == |w.pool.members|
    requires forall k :: 0 <= k < |w.pool.members| ==>
               v.pool.members[k] == w.pool.members[k].(metrics :=
                 w.pool.members[k].metrics.(recentErrors := v.pool.members[k].metrics.recentErrors))
    ensures Good(v)
  {
    hide Conserved;
    ShapeCarries(w, v);
    forall k | 0 <= k < |v.pool.members| ensures ConservedAt(v, k) {
      assert ConservedAt(w, k);
      var t := TicketAt(w.pool, k);
      ConservedMove(w.pool.members[k].metrics, w.accounts[k], w.dials[t], w.guards[t], w.drops[PendingAt(w.pool, k)]);
    }
  }

  /** Steps that change no counter of the ledger. */
  predicate Quiet(step: Step) {
    step.ReportErr? || step.CancelReport? || step.DrainAt? || step.UndrainAt? || step.SetStrategy?
  }

  lemma QuietStepKeeps(w: World, step: Step)
    requires Good(w) && Enabled(w, step) && Quiet(step)
    ensures Formed(w) && Good(Apply(w, step))
  {
    hide ConservedAt, Distinct, Good,
         AfterBegin, AfterOk, AfterErr, AfterCancel, AfterCheck, AfterWrite, AfterAdd, AfterRemove, AfterReplace;
    GoodIsShaped(w);
    QuietKeeps(w, Apply(w, step));
  }

  lemma DialStepKeeps(w: World, step: Step)
    requires Good(w) && Enabled(w, step)
    requires step.DialOk? || step.DialErr? || step.CancelDial? || step.GuardCheck? || step.GuardWrite?
    ensures Formed(w) && Good(Apply(w, step))
  {
    GoodIsShaped(w);
    hide Good, Shaped, WellFormed, Formed, AfterOk, AfterErr, AfterCancel, AfterCheck, AfterWrite;
    match step
    case DialOk(t) => OkKeeps(w, t);
    case DialErr(t) => ErrKeeps(w, t);
    case CancelDial(t, cleared) => CancelKeeps(w, t, cleared);
    case GuardCheck(t) => CheckKeeps(w, t);
    case GuardWrite(d, lockFree) => WriteKeeps(w, d, lockFree);
  }

  /** Every enabled step keeps guard identity and conservation exactly when it is tame. */
  lemma StepGoodIff(w: World, step: Step)
    requires Good(w) && Enabled(w, step)
    ensures Formed(w)
    ensures Good(Apply(w, step)) <==> Tame(w, step)
  {
    GoodIsShaped(w);
    hide Good, Shaped, Exclusive, Picked, WellFormed, Formed, NextGenerationFree, DropsSurviveRemoval,
         AfterBegin, AfterOk, AfterErr, AfterCancel, AfterCheck, AfterWrite, AfterAdd;
    match step
    case BeginDial(draw) => BeginKeepsIff(w, draw);
    case AddOne(id) => AddKeepsIff(w, id);
    case RemoveAt(i) => if i < |w.pool.members| { RemoveKeepsIff(w, i); }
    case ReplaceAll(n, s) => if n > 0 { ReplaceKeepsIff(w, n, s); }
    case _ => if Quiet(step) { QuietStepKeeps(w, step); } else { DialStepKeeps(w, step); }
  }
}
