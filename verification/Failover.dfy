/** The failover strategy: one primary takes all traffic until it fails. */
module Failover {
  import opened Arithmetic

  datatype Failing = Failing(primary: nat, len: nat)

  /** `pick` over a pool of `n` backends: the next state and the chosen index. */
  function PickStep(s: Failing, n: nat): (Failing, nat) {
    (s.(len := n), if n == 0 then 0 else s.primary % n)
  }

  function ReportError(s: Failing, idx: nat): Failing {
    var len := if s.len > 0 then s.len else idx + 1;
    if idx == s.primary then s.(primary := (idx + 1) % len) else s
  }

  /** One dial in a pool of `n` where exactly the backends in `down` fail. */
  function Dial(s: Failing, n: nat, down: set<nat>): Failing {
    var (t, idx) := PickStep(s, n);
    if idx in down then ReportError(t, idx) else t
  }

  /** The state after `k` dials, one after another. */
  function Dials(s: Failing, n: nat, down: set<nat>, k: nat): Failing {
    if k == 0 then s else Dial(Dials(s, n, down, k - 1), n, down)
  }

  /** The backend used by dial number `k`, counted from 0. */
  function Used(s: Failing, n: nat, down: set<nat>, k: nat): nat {
    PickStep(Dials(s, n, down, k), n).1
  }

  lemma {:induction false} ProperSubsetOfRange(s: set<nat>, n: nat, up: nat)
    requires (forall x :: x in s ==> x < n) && up < n && up !in s
    ensures |s| < n
    decreases n
  {
    var last := n - 1;
    if last in s {
      var t := s - {last};
      assert |t| == |s| - 1;
      ProperSubsetOfRange(t, last, up);
    } else if n > 1 && up != last {
      ProperSubsetOfRange(s, last, up);
    } else {
      SubsetOfRange(s, last);
    }
  }

  lemma {:induction false} SubsetOfRange(s: set<nat>, n: nat)
    requires forall x :: x in s ==> x < n
    ensures |s| <= n
    decreases n
  {
    if n == 0 {
      assert s == {};
    } else {
      SubsetOfRange(s - {n - 1}, n - 1);
    }
  }

  /** While every dial fails, the primary advances by one each time. */
  lemma {:induction false} Advances(s: Failing, n: nat, down: set<nat>, k: nat)
    requires s.primary < n && k < n
    requires forall j :: 0 <= j < k ==> Ahead(s.primary, j, n) in down
    ensures Dials(s, n, down, k).primary == Ahead(s.primary, k, n)
    ensures Used(s, n, down, k) == Ahead(s.primary, k, n)
  {
    if k == 0 {
    } else {
      Advances(s, n, down, k - 1);
      var p := Ahead(s.primary, k - 1, n);
      ModBelow(p + 1, n);
    }
    ModBelow(Ahead(s.primary, k, n), n);
  }

  /** A working primary keeps all the traffic. */
  lemma {:induction false} Stays(s: Failing, n: nat, down: set<nat>, k: nat)
    requires n > 0 && s.primary % n !in down
    ensures Dials(s, n, down, k).primary == s.primary
  {
    if k == 0 {
    } else {
      Stays(s, n, down, k - 1);
    }
  }

  lemma {:induction false} DialsCompose(s: Failing, n: nat, down: set<nat>, d: nat, k: nat)
    ensures Dials(s, n, down, d + k) == Dials(Dials(s, n, down, d), n, down, k)
  {
    if k == 0 {
    } else {
      DialsCompose(s, n, down, d, k - 1);
    }
  }

  /** In a constant pool with at least one working backend, the first `d` dials fail, each on
      a different backend, and every later dial succeeds on one and the same backend, where
      `d` is at most the number of failing backends. */
  lemma FindsWorking(s: Failing, n: nat, down: set<nat>, up: nat) returns (d: nat)
    requires s.primary < n && up < n && up !in down && forall x :: x in down ==> x < n
    ensures d <= |down| < n
    ensures forall k :: 0 <= k < d ==> Used(s, n, down, k) in down
    ensures forall i, j :: 0 <= i < j < d ==> Used(s, n, down, i) != Used(s, n, down, j)
    ensures Ahead(s.primary, d, n) !in down
    ensures forall k :: d <= k ==> Used(s, n, down, k) == Ahead(s.primary, d, n)
  {
    var p := s.primary;
    ProperSubsetOfRange(down, n, up);
    d := 0;
    var visited: set<nat> := {};
    while Ahead(p, d, n) in down
      invariant |visited| == d <= |down| && visited <= down
      invariant forall j :: 0 <= j < d ==> Ahead(p, j, n) in down
      invariant forall x :: x in visited ==> exists j :: 0 <= j < d && x == Ahead(p, j, n)
      decreases |down| - d
    {
      var x := Ahead(p, d, n);
      assert x !in visited;
      visited := visited + {x};
      SubsetIsSmaller(visited, down);
      d := d + 1;
    }
    forall k | 0 <= k < d ensures Used(s, n, down, k) == Ahead(p, k, n) {
      Advances(s, n, down, k);
    }
    Settles(s, n, down, d);
  }

  lemma Settles(s: Failing, n: nat, down: set<nat>, d: nat)
    requires s.primary < n && d < n
    requires forall j :: 0 <= j < d ==> Ahead(s.primary, j, n) in down
    requires Ahead(s.primary, d, n) !in down
    ensures forall k :: d <= k ==> Used(s, n, down, k) == Ahead(s.primary, d, n)
  {
    var t, q := Dials(s, n, down, d), Ahead(s.primary, d, n);
    Advances(s, n, down, d);
    ModBelow(q, n);
    forall k | d <= k ensures Used(s, n, down, k) == q {
      DialsCompose(s, n, down, d, k - d);
      Stays(t, n, down, k - d);
    }
  }

  lemma {:induction false} SubsetIsSmaller(a: set<nat>, b: set<nat>)
    requires a <= b
    ensures |a| <= |b|
  {
    if a == {} {
    } else {
      var x :| x in a;
      SubsetIsSmaller(a - {x}, b - {x});
    }
  }

  /** An error on the picked backend moves the next pick exactly when the primary is inside
      the pool and there is somewhere else to go. */
  lemma RotatesIff(s: Failing, n: nat)
    requires n > 0
    ensures var (t, idx) := PickStep(s, n);
            PickStep(ReportError(t, idx), n).1 != idx <==> s.primary < n && n > 1
  {
    if s.primary < n {
      ModBelow(s.primary, n);
      ModBelow(s.primary + 1, n);
      ModBelow((s.primary + 1) % n, n);
    }
  }

  /** After a shrink below the primary, errors on the picked backend never move the pick. */
  lemma {:induction false} StuckAfterShrink(s: Failing, n: nat, down: set<nat>, k: nat)
    requires 0 < n <= s.primary
    ensures Used(s, n, down, k) == s.primary % n && Dials(s, n, down, k).primary == s.primary
  {
    if k == 0 {
    } else {
      StuckAfterShrink(s, n, down, k - 1);
    }
  }

  /** A call made on the strategy. */
  datatype Call = PickFrom(n: nat) | ErrorOn(idx: nat)

  function Apply(s: Failing, c: Call): Failing {
    match c
    case PickFrom(n) => PickStep(s, n).0
    case ErrorOn(idx) => ReportError(s, idx)
  }

  function Run(s: Failing, calls: seq<Call>): Failing {
    if calls == [] then s else Apply(Run(s, calls[..|calls| - 1]), calls[|calls| - 1])
  }

  /** No pick sees a smaller pool than the one before it. */
  predicate NeverShrinks(len: nat, calls: seq<Call>)
    decreases |calls|
  {
    calls == [] ||
    match calls[0]
    case PickFrom(n) => len <= n && NeverShrinks(n, calls[1..])
    case ErrorOn(_) => NeverShrinks(len, calls[1..])
  }

  ghost predicate InPool(s: Failing) { s.primary < s.len || s.primary == 0 }

  lemma {:induction false} RunFromFront(s: Failing, calls: seq<Call>)
    requires calls != []
    ensures Run(s, calls) == Run(Apply(s, calls[0]), calls[1..])
  {
    var n := |calls| - 1;
    if n == 0 {
      assert calls[..n] == [] && calls[1..] == [];
    } else {
      RunFromFront(s, calls[..n]);
      assert calls[..n][1..] == calls[1..][..n - 1];
    }
  }

  /** In a pool that never shrinks, whatever errors are reported, the primary stays inside. */
  lemma {:induction false} StaysInPool(s: Failing, calls: seq<Call>)
    requires InPool(s) && NeverShrinks(s.len, calls)
    ensures InPool(Run(s, calls))
    decreases |calls|
  {
    if calls == [] {
    } else {
      RunFromFront(s, calls);
      StaysInPool(Apply(s, calls[0]), calls[1..]);
    }
  }

  class Failover {
    var primary: nat
    var len: nat

    ghost function State(): Failing
      reads this
    {
      Failing(primary, len)
    }

    constructor (backendCount: nat)
      ensures State() == Failing(0, backendCount)
    {
      primary, len := 0, backendCount;
    }

    method Pick(n: nat) returns (idx: nat)
      modifies `len
      ensures (State(), idx) == PickStep(old(State()), n)
    {
      len := n;
      if len == 0 {
        return 0;
      }
      idx := primary % len;
    }

    method Report(idx: nat)
      modifies `primary
      ensures State() == ReportError(old(State()), idx)
    {
      var bound := if len > 0 then len else idx + 1;
      if idx == primary {
        primary := (idx + 1) % bound;
      }
    }
  }
}
