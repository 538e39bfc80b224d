/** All nine strategies behind one `pick`, and the two that only keep an index. */
module Strategies {
  import opened Arithmetic
  import opened Metrics
  import Failover
  import Selection
  import Wrr = WeightedRoundRobin

  /** The state of the strategy in use. */
  datatype Strategy =
    | RoundRobin(next: nat)
    | Random
    | LowestRtt
    | LeastConnections
    | HashByAddr
    | WeightedRoundRobin(wrr: Wrr.Wrr)
    | Failover(failing: Failover.Failing)
    | HealthWeighted
    | Sticky(pinned: Option<nat>)

  ghost predicate WellFormed(s: Strategy) {
    s.WeightedRoundRobin? ==> Wrr.WellFormed(s.wrr)
  }

  /** `pick` over a non-empty pool. `draw` stands for the random number or the hash of the
      address. Whatever sizes the pool had before, the index is inside the present pool. */
  function PickStep(s: Strategy, metrics: seq<TunnelMetrics>, draw: nat): (r: (Strategy, nat))
    requires WellFormed(s) && metrics != []
    ensures WellFormed(r.0) && r.1 < |metrics|
  {
    var n := |metrics|;
    match s
    case RoundRobin(next) => (RoundRobin(next % n + 1), next % n)
    case Random => (s, draw % n)
    case LowestRtt => (s, Selection.ArgMin(Selection.RttKeys(metrics)))
    case LeastConnections => (s, Selection.ArgMin(Selection.LoadKeys(metrics)))
    case HashByAddr => (s, draw % n)
    case WeightedRoundRobin(wrr) =>
      var (wrr', idx) := Wrr.PickStep(wrr, Rtts(metrics));
      (WeightedRoundRobin(wrr'), idx)
    case Failover(failing) =>
      var (failing', idx) := Failover.PickStep(failing, n);
      (Failover(failing'), idx)
    case HealthWeighted => (s, Selection.ArgMin(Selection.Scores(metrics)))
    case Sticky(Some(idx)) => (s, Min(idx, n - 1))
    case Sticky(None) =>
      var idx := Selection.ArgMin(Selection.RttKeys(metrics));
      (Sticky(Some(idx)), idx)
  }

  /** Only failover reacts to a dial error. */
  function ReportError(s: Strategy, idx: nat): (r: Strategy)
    ensures WellFormed(s) ==> WellFormed(r)
  {
    if s.Failover? then Failover(Failover.ReportError(s.failing, idx)) else s
  }

  /** A reported error changes a strategy exactly when it is failover, the error is its
      primary's, and there is another backend to move to. */
  lemma ErrorMattersIff(s: Strategy, idx: nat)
    ensures ReportError(s, idx) != s
            <==> s.Failover? && s.failing.primary == idx && !(idx == 0 && s.failing.len <= 1)
    ensures s.Failover? && s.failing.primary == idx < s.failing.len ==>
              ReportError(s, idx) == Failover(s.failing.(primary := if idx + 1 < s.failing.len then idx + 1 else 0))
  {
    if s.Failover? {
      var len := if s.failing.len > 0 then s.failing.len else idx + 1;
      if idx + 1 < len { assert (idx + 1) % len == idx + 1; }
    }
  }

  /** The state after a pick over each of the given metrics, oldest first. */
  function After(s: Strategy, views: seq<seq<TunnelMetrics>>): (r: Strategy)
    requires WellFormed(s) && forall i :: 0 <= i < |views| ==> views[i] != []
    ensures WellFormed(r)
  {
    if views == [] then s
    else PickStep(After(s, views[..|views| - 1]), views[|views| - 1], 0).0
  }

  // ------------------------------------------------------------- round robin

  /** Round robin's pick number `k`, whatever the metrics it sees. */
  function Turn(next: nat, views: seq<seq<TunnelMetrics>>, k: nat): nat
    requires k < |views| && forall i :: 0 <= i < |views| ==> views[i] != []
  {
    PickStep(After(RoundRobin(next), views[..k]), views[k], 0).1
  }

  /** A pool of `n` backends at every pick; its metrics may change in between. */
  predicate PoolsOf(views: seq<seq<TunnelMetrics>>, n: nat) {
    n > 0 && forall i :: 0 <= i < |views| ==> |views[i]| == n
  }

  lemma {:induction false} TurnsGoRound(next: nat, views: seq<seq<TunnelMetrics>>, n: nat, k: nat)
    requires PoolsOf(views, n) && k < |views| && k < n
    ensures After(RoundRobin(next), views[..k]).RoundRobin?
    ensures Turn(next, views, k) == Ahead(next % n, k, n)
  {
    if k == 0 {
    } else {
      TurnsGoRound(next, views, n, k - 1);
      assert views[..k][..k - 1] == views[..k - 1];
      ModBelow(Turn(next, views, k - 1) + 1, n);
    }
  }

  /** Any run of as many picks as there are backends visits every backend exactly once. */
  lemma RoundRobinVisitsAll(next: nat, views: seq<seq<TunnelMetrics>>, i: nat) returns (k: nat)
    requires PoolsOf(views, |views|) && i < |views|
    ensures k < |views| && Turn(next, views, k) == i
    ensures forall j :: 0 <= j < |views| && Turn(next, views, j) == i ==> j == k
  {
    var n := |views|;
    var start := next % n;
    k := if start <= i then i - start else i + n - start;
    forall j | 0 <= j < n ensures Turn(next, views, j) == Ahead(start, j, n) {
      TurnsGoRound(next, views, n, j);
    }
  }

  /** Over a pool that changes, round robin goes on from the index it last picked. */
  lemma RoundRobinResumes(next: nat, before: seq<TunnelMetrics>, after: seq<TunnelMetrics>, draw: nat)
    requires before != [] && after != []
    ensures var (s, prev) := PickStep(RoundRobin(next), before, draw);
            var idx := PickStep(s, after, draw).1;
            && (prev + 1 < |after| ==> idx == prev + 1)
            && (prev + 1 == |after| ==> idx == 0)
  {
    var prev := PickStep(RoundRobin(next), before, draw).1;
    if prev + 1 <= |after| { ModBelow(prev + 1, |after|); }
  }

  // --------------------------------------------------------- stateless picks

  /** Lowest RTT, and sticky before it is pinned, pick the leftmost of the lowest known RTTs. */
  lemma LowestRttPicked(metrics: seq<TunnelMetrics>, draw: nat, i: nat)
    requires i < |metrics|
    ensures var b := PickStep(LowestRtt, metrics, draw).1;
            && PickStep(Sticky(None), metrics, draw) == (Sticky(Some(b)), b)
            && (metrics[i].rtt.Some? && metrics[i].rtt.value < DURATION_MAX ==>
                 && metrics[b].rtt.Some? && metrics[b].rtt.value <= metrics[i].rtt.value
                 && (i < b ==> metrics[b].rtt.value < metrics[i].rtt.value))
            && ((forall j :: 0 <= j < |metrics| ==> metrics[j].rtt.None?) ==> b == 0)
  {
    Selection.LowestRttWins(metrics, i);
  }

  /** A hashed address goes to the same index whatever the metrics, and any index can be drawn. */
  lemma DrawDecides(a: seq<TunnelMetrics>, b: seq<TunnelMetrics>, draw: nat, i: nat)
    requires |a| == |b| && i < |a|
    ensures PickStep(HashByAddr, a, draw) == PickStep(HashByAddr, b, draw)
    ensures PickStep(HashByAddr, a, i) == (HashByAddr, i) && PickStep(Random, a, i) == (Random, i)
    ensures draw == draw / |a| * |a| + PickStep(HashByAddr, a, draw).1
  {
    ModBelow(i, |a|);
  }

  // ------------------------------------------------------------------ sticky

  /** Once pinned, sticky keeps its index through any history of pools, clamped to the pool. */
  lemma {:induction false} StickyKeepsIndex(pinned: nat, views: seq<seq<TunnelMetrics>>, metrics: seq<TunnelMetrics>)
    requires metrics != [] && forall i :: 0 <= i < |views| ==> views[i] != []
    ensures After(Sticky(Some(pinned)), views) == Sticky(Some(pinned))
    ensures PickStep(After(Sticky(Some(pinned)), views), metrics, 0).1 == Min(pinned, |metrics| - 1)
  {
    if views == [] {
    } else {
      StickyKeepsIndex(pinned, views[..|views| - 1], metrics);
    }
  }
}

/** The strategy objects whose only state is an index. */
module IndexStrategies {
  import opened Metrics
  import S = Strategies
  import Selection

  class RoundRobin {
    var next: nat

    constructor ()
      ensures next == 0
    {
      next := 0;
    }

    method Pick(metrics: seq<TunnelMetrics>) returns (idx: nat)
      requires metrics != []
      modifies this
      ensures (S.RoundRobin(next), idx) == S.PickStep(S.RoundRobin(old(next)), metrics, 0)
    {
      idx := next % |metrics|;
      next := idx + 1;
    }
  }

  class Sticky {
    var pinned: Option<nat>

    constructor ()
      ensures pinned == None
    {
      pinned := None;
    }

    method Pick(metrics: seq<TunnelMetrics>) returns (idx: nat)
      modifies this
      ensures metrics != [] ==> (S.Sticky(pinned), idx) == S.PickStep(S.Sticky(old(pinned)), metrics, 0)
      ensures metrics == [] ==> idx == 0 && pinned == if old(pinned).Some? then old(pinned) else Some(0)
    {
      if pinned.Some? {
        return Min(pinned.value, if |metrics| == 0 then 0 else |metrics| - 1);
      }
      idx := Selection.FindLowestRtt(metrics);
      if metrics != [] {
        Selection.LeftmostUnique(Selection.RttKeys(metrics), idx,
                                 Selection.ArgMin(Selection.RttKeys(metrics)), |metrics|);
      }
      pinned := Some(idx);
    }
  }
}
