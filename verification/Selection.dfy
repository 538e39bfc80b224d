/** The strategies that scan the metrics for a least element. */
module Selection {
  import opened Arithmetic
  import opened Metrics

  const ERROR_PENALTY_US := 500_000
  const LOAD_PENALTY_US := 10_000
  const DEFAULT_RTT_US := 1_000_000

  /** `b` is the leftmost index of a least key among the first `k`. */
  ghost predicate Leftmost(keys: seq<int>, b: nat, k: nat)
    requires k <= |keys|
  {
    && b < k
    && (forall i :: 0 <= i < k ==> keys[b] <= keys[i])
    && (forall i :: 0 <= i < b ==> keys[b] < keys[i])
  }

  function ArgMin(keys: seq<int>): (b: nat)
    requires keys != []
    ensures Leftmost(keys, b, |keys|)
  {
    var n := |keys| - 1;
    if n == 0 then 0
    else
      var b := ArgMin(keys[..n]);
      assert forall i :: 0 <= i < n ==> keys[..n][i] == keys[i];
      if keys[n] < keys[b] then n else b
  }

  lemma LeftmostUnique(keys: seq<int>, a: nat, b: nat, k: nat)
    requires k <= |keys| && Leftmost(keys, a, k) && Leftmost(keys, b, k)
    ensures a == b
  {
    assert keys[a] <= keys[b] <= keys[a];
  }

  // -------------------------------------------------------- health weighted

  function RttMicros(rtt: Option<Duration>): U64 {
    match rtt
    case None => DEFAULT_RTT_US
    case Some(d) => if d / NANOS_PER_MICRO <= U64_MAX then d / NANOS_PER_MICRO else DEFAULT_RTT_US
  }

  /** The documented score, over unbounded integers. */
  function ExactScore(m: TunnelMetrics): nat {
    RttMicros(m.rtt) + m.recentErrors * ERROR_PENALTY_US + m.activeConnections * LOAD_PENALTY_US
  }

  /** The score as u64 arithmetic computes it. */
  function Score(m: TunnelMetrics): U64 { ExactScore(m) % 0x1_0000_0000_0000_0000 }

  function Scores(metrics: seq<TunnelMetrics>): (s: seq<int>)
    ensures |s| == |metrics| && forall i :: 0 <= i < |s| ==> s[i] == Score(metrics[i])
  {
    seq(|metrics|, i requires 0 <= i < |metrics| => Score(metrics[i]))
  }

  /** What the score is made of: the RTT in microseconds, or a second if it is unknown or does
      not fit u64; half a second per recent error; ten milliseconds per open connection. */
  lemma ScoreParts(m: TunnelMetrics)
    ensures var idle := m.(recentErrors := 0, activeConnections := 0);
            match m.rtt
            case None => ExactScore(idle) == 1_000_000
            case Some(d) =>
              if d < 1000 * (U64_MAX + 1) then ExactScore(idle) * 1000 <= d < (ExactScore(idle) + 1) * 1000
              else ExactScore(idle) == 1_000_000
    ensures m.recentErrors < U32_MAX ==>
              ExactScore(m.(recentErrors := m.recentErrors + 1)) == ExactScore(m) + 500_000
    ensures m.activeConnections < U32_MAX ==>
              ExactScore(m.(activeConnections := m.activeConnections + 1)) == ExactScore(m) + 10_000
    ensures ExactScore(m) <= U64_MAX ==> Score(m) == ExactScore(m)
  {}

  /** What `a` is worse by than `b`, in microseconds. */
  function WorseBy(a: TunnelMetrics, b: TunnelMetrics): int {
    RttMicros(a.rtt) - RttMicros(b.rtt)
    + 500_000 * (a.recentErrors - b.recentErrors) + 10_000 * (a.activeConnections - b.activeConnections)
  }

  /** While no score overflows, health-weighted selection picks a backend exactly when it is
      worse than no other, and better than every one to its left. */
  lemma HealthWeightedPicksIff(metrics: seq<TunnelMetrics>, b: nat)
    requires b < |metrics| && forall i :: 0 <= i < |metrics| ==> ExactScore(metrics[i]) <= U64_MAX
    ensures ArgMin(Scores(metrics)) == b <==>
            && (forall i :: 0 <= i < |metrics| ==> WorseBy(metrics[b], metrics[i]) <= 0)
            && (forall i :: 0 <= i < b ==> WorseBy(metrics[b], metrics[i]) < 0)
  {
    hide RttMicros;
    var keys := Scores(metrics);
    forall i | 0 <= i < |metrics| ensures keys[b] - keys[i] == WorseBy(metrics[b], metrics[i]) {
      ScoreParts(metrics[i]);
      ScoreParts(metrics[b]);
    }
    hide WorseBy, ExactScore, Score, Scores;
    if (forall i :: 0 <= i < |metrics| ==> WorseBy(metrics[b], metrics[i]) <= 0)
       && (forall i :: 0 <= i < b ==> WorseBy(metrics[b], metrics[i]) < 0) {
      assert Leftmost(keys, b, |keys|);
      LeftmostUnique(keys, b, ArgMin(keys), |keys|);
    }
  }

  /** No score overflows below this RTT, whatever the error and load counters. */
  const SAFE_RTT_US := U64_MAX - (ERROR_PENALTY_US + LOAD_PENALTY_US) * U32_MAX

  /** The RTT bound is exactly what makes every counter combination safe. */
  lemma ScoreExactIff(rtt: Option<Duration>)
    ensures RttMicros(rtt) <= SAFE_RTT_US
            <==> forall a: U32, e: U32, d: U64, t: U64 ::
                   var m := TunnelMetrics(rtt, a, e, d, t); Score(m) == ExactScore(m)
  {
    if RttMicros(rtt) > SAFE_RTT_US {
      var worst := TunnelMetrics(rtt, U32_MAX, U32_MAX, 0, 0);
      assert ExactScore(worst) > U64_MAX;
      assert Score(worst) != ExactScore(worst);
    }
  }

  method HealthWeightedPick(metrics: seq<TunnelMetrics>) returns (best: nat)
    ensures if metrics == [] then best == 0 else Leftmost(Scores(metrics), best, |metrics|)
    ensures metrics != [] ==> best == ArgMin(Scores(metrics))
  {
    best := 0;
    var bestScore: U64 := U64_MAX;
    for i := 0 to |metrics|
      invariant best < Max(i, 1)
      invariant forall j :: 0 <= j < i ==> bestScore <= Score(metrics[j])
      invariant forall j :: 0 <= j < best ==> bestScore < Score(metrics[j])
      invariant if bestScore < U64_MAX then best < i && bestScore == Score(metrics[best]) else best == 0
    {
      var score := Score(metrics[i]);
      if score < bestScore {
        bestScore := score;
        best := i;
      }
    }
    if metrics != [] { LeftmostUnique(Scores(metrics), best, ArgMin(Scores(metrics)), |metrics|); }
  }

  // ------------------------------------------------------- least connections

  function RttOrMax(m: TunnelMetrics): Duration {
    if m.rtt.Some? then m.rtt.value else DURATION_MAX
  }

  /** Known RTTs keep their order, and an unknown one comes before none. */
  lemma RttOrder(a: TunnelMetrics, b: TunnelMetrics)
    ensures RttOrMax(a) < RttOrMax(b) <==>
            a.rtt.Some? && (if b.rtt.Some? then a.rtt.value < b.rtt.value else a.rtt.value < DURATION_MAX)
  {}

  /** Encodes (active connections, RTT or maximum) so that integer order is lexicographic. */
  function LoadKey(m: TunnelMetrics): nat {
    m.activeConnections * (DURATION_MAX + 1) + RttOrMax(m)
  }

  lemma LoadKeyIsLexicographic(a: TunnelMetrics, b: TunnelMetrics)
    ensures LoadKey(a) < LoadKey(b)
            <==> a.activeConnections < b.activeConnections
                 || (a.activeConnections == b.activeConnections && RttOrMax(a) < RttOrMax(b))
  {}

  function LoadKeys(metrics: seq<TunnelMetrics>): (s: seq<int>)
    ensures |s| == |metrics| && forall i :: 0 <= i < |s| ==> s[i] == LoadKey(metrics[i])
  {
    seq(|metrics|, i requires 0 <= i < |metrics| => LoadKey(metrics[i]))
  }

  method LeastConnectionsPick(metrics: seq<TunnelMetrics>) returns (best: nat)
    ensures if metrics == [] then best == 0 else Leftmost(LoadKeys(metrics), best, |metrics|)
    ensures metrics != [] ==> best == ArgMin(LoadKeys(metrics))
  {
    best := 0;
    var bestCount: U32 := U32_MAX;
    for i := 0 to |metrics|
      invariant i == 0 ==> best == 0 && bestCount == U32_MAX
      invariant i > 0 ==> Leftmost(LoadKeys(metrics), best, i) && bestCount == metrics[best].activeConnections
    {
      var m := metrics[i];
      LoadKeyIsLexicographic(m, metrics[best]);
      LoadKeyIsLexicographic(metrics[best], m);
      if m.activeConnections < bestCount {
        bestCount := m.activeConnections;
        best := i;
      } else if m.activeConnections == bestCount {
        if RttOrMax(m) < RttOrMax(metrics[best]) {
          best := i;
        }
      }
    }
    if metrics != [] { LeftmostUnique(LoadKeys(metrics), best, ArgMin(LoadKeys(metrics)), |metrics|); }
  }

  // -------------------------------------------------------------- lowest RTT

  function RttKeys(metrics: seq<TunnelMetrics>): (s: seq<int>)
    ensures |s| == |metrics| && forall i :: 0 <= i < |s| ==> s[i] == RttOrMax(metrics[i])
  {
    seq(|metrics|, i requires 0 <= i < |metrics| => RttOrMax(metrics[i]))
  }

  method FindLowestRtt(metrics: seq<TunnelMetrics>) returns (best: nat)
    ensures if metrics == [] then best == 0 else Leftmost(RttKeys(metrics), best, |metrics|)
    ensures metrics != [] ==> best == ArgMin(RttKeys(metrics))
  {
    best := 0;
    var bestRtt: Duration := DURATION_MAX;
    for i := 0 to |metrics|
      invariant best < Max(i, 1)
      invariant forall j :: 0 <= j < i ==> bestRtt <= RttOrMax(metrics[j])
      invariant forall j :: 0 <= j < best ==> bestRtt < RttOrMax(metrics[j])
      invariant if bestRtt < DURATION_MAX then best < i && bestRtt == RttOrMax(metrics[best]) else best == 0
    {
      match metrics[i].rtt
      case Some(rtt) =>
        if rtt < bestRtt {
          bestRtt := rtt;
          best := i;
        }
      case None =>
    }
    if metrics != [] { LeftmostUnique(RttKeys(metrics), best, ArgMin(RttKeys(metrics)), |metrics|); }
  }

  /** The least RTT key belongs to the leftmost of the lowest known RTTs, or to the first backend
      if no RTT is known. */
  lemma LowestRttWins(metrics: seq<TunnelMetrics>, i: nat)
    requires i < |metrics|
    ensures var b := ArgMin(RttKeys(metrics));
            && (metrics[i].rtt.Some? && metrics[i].rtt.value < DURATION_MAX ==>
                 && metrics[b].rtt.Some? && metrics[b].rtt.value <= metrics[i].rtt.value
                 && (i < b ==> metrics[b].rtt.value < metrics[i].rtt.value))
            && ((forall j :: 0 <= j < |metrics| ==> metrics[j].rtt.None?) ==> b == 0)
  {
    var keys := RttKeys(metrics);
    var b := ArgMin(keys);
    assert keys[b] <= keys[i] && (i < b ==> keys[b] < keys[i]);
    assert b > 0 ==> keys[b] < keys[0];
  }

  // ---------------------------------------- least connections keeps a balance

  /** `dial_with_options` counts the picked backend before dialling. */
  function Counted(m: TunnelMetrics): TunnelMetrics {
    m.(activeConnections := IncWrap32(m.activeConnections), totalDials := IncWrap64(m.totalDials))
  }

  /** The metrics after `n` dials picked by least connections, none of them ending. */
  function Loaded(metrics: seq<TunnelMetrics>, n: nat): (r: seq<TunnelMetrics>)
    requires metrics != []
    ensures |r| == |metrics|
  {
    if n == 0 then metrics
    else
      var before := Loaded(metrics, n - 1);
      var b := ArgMin(LoadKeys(before));
      before[b := Counted(before[b])]
  }

  function Active(metrics: seq<TunnelMetrics>): (s: seq<int>)
    ensures |s| == |metrics| && forall i :: 0 <= i < |s| ==> s[i] == metrics[i].activeConnections
  {
    seq(|metrics|, i requires 0 <= i < |metrics| => metrics[i].activeConnections)
  }

  /** No two counts differ by more than one. */
  ghost predicate Level(a: seq<int>) {
    forall i, j :: 0 <= i < |a| && 0 <= j < |a| ==> a[i] <= a[j] + 1
  }

  /** `n` connections laid evenly on top of `base` per backend. */
  ghost predicate Even(a: seq<int>, base: nat, n: nat) {
    Level(a) && Sum(a) == base * |a| + n
  }

  /** From equal counts, `n` dials spread as evenly as whole connections allow. */
  lemma {:induction false} LeastConnectionsBalances(metrics: seq<TunnelMetrics>, base: nat, n: nat)
    requires metrics != [] && forall i :: 0 <= i < |metrics| ==> metrics[i].activeConnections == base
    requires base + CeilDiv(n, |metrics|) <= U32_MAX
    ensures Even(Active(Loaded(metrics, n)), base, n)
    ensures forall i :: 0 <= i < |metrics| ==>
              base + n / |metrics| <= Active(Loaded(metrics, n))[i] <= base + CeilDiv(n, |metrics|)
  {
    var a := Active(Loaded(metrics, n));
    if n == 0 {
      SumBetween(a, base, |a|, 0);
    } else {
      DivisionSteps(n, |metrics|);
      LeastConnectionsBalances(metrics, base, n - 1);
      LeastHasRoom(Loaded(metrics, n - 1), base, n);
      DialKeepsEven(Loaded(metrics, n - 1), base, n - 1);
    }
    forall i | 0 <= i < |metrics|
      ensures base + n / |metrics| <= a[i] <= base + CeilDiv(n, |metrics|)
    {
      EvenBounds(a, base, n, i);
    }
  }

  lemma LeastHasRoom(before: seq<TunnelMetrics>, base: nat, n: nat)
    requires before != [] && n > 0 && Even(Active(before), base, n - 1)
    requires base + CeilDiv(n, |before|) <= U32_MAX
    ensures before[ArgMin(LoadKeys(before))].activeConnections < U32_MAX
  {
    hide CeilDiv;
    var b, a := ArgMin(LoadKeys(before)), Active(before);
    LeastKeyIsLeastLoad(before, b);
    SumBetween(a, a[b], |a|, b);
    BelowAverage(a[b], base, n, |a|);
  }

  /** Counting one more dial on the least loaded backend keeps the load even. */
  lemma DialKeepsEven(before: seq<TunnelMetrics>, base: nat, n: nat)
    requires before != [] && Even(Active(before), base, n)
    requires before[ArgMin(LoadKeys(before))].activeConnections < U32_MAX
    ensures var b := ArgMin(LoadKeys(before));
            Even(Active(before[b := Counted(before[b])]), base, n + 1)
  {
    var b, a := ArgMin(LoadKeys(before)), Active(before);
    LeastKeyIsLeastLoad(before, b);
    RaiseLeastKeepsLevel(a, b);
    SumToUpdate(a, b, a[b] + 1, |a|);
    assert Active(before[b := Counted(before[b])]) == a[b := a[b] + 1];
  }

  lemma RaiseLeastKeepsLevel(a: seq<int>, b: nat)
    requires b < |a| && Level(a) && forall i :: 0 <= i < |a| ==> a[b] <= a[i]
    ensures Level(a[b := a[b] + 1])
  {}

  function CeilDiv(n: nat, d: nat): nat
    requires d > 0
  {
    (n + d - 1) / d
  }

  lemma DivisionSteps(n: nat, d: nat)
    requires n > 0 && d > 0
    ensures CeilDiv(n, d) == (n - 1) / d + 1 && CeilDiv(n - 1, d) <= CeilDiv(n, d)
  {
    var q := (n - 1) / d;
    QuotientBounds(n - 1, d);
    Distribute(d, q, 1);
    Distribute(d, q + 1, 1);
    QuotientUnique(n + d - 1, d, q + 1);
    if n - 1 == q * d {
      QuotientUnique(n - 1 + d - 1, d, q);
    } else {
      QuotientUnique(n - 1 + d - 1, d, q + 1);
    }
  }

  lemma BelowAverage(least: nat, base: nat, n: nat, d: nat)
    requires n > 0 && d > 0 && least * d <= base * d + n - 1
    ensures least < base + CeilDiv(n, d)
  {
    DivisionSteps(n, d);
    var q := (n - 1) / d;
    QuotientBounds(n - 1, d);
    Distribute(d, base, q + 1);
    MulCancel(least, base + (q + 1), d);
  }

  lemma LeastKeyIsLeastLoad(metrics: seq<TunnelMetrics>, b: nat)
    requires b < |metrics| && Leftmost(LoadKeys(metrics), b, |metrics|)
    ensures forall i :: 0 <= i < |metrics| ==> metrics[b].activeConnections <= metrics[i].activeConnections
  {
    forall i | 0 <= i < |metrics|
      ensures metrics[b].activeConnections <= metrics[i].activeConnections
    {
      assert LoadKeys(metrics)[b] <= LoadKeys(metrics)[i];
      LoadKeyIsLexicographic(metrics[i], metrics[b]);
    }
  }

  /** A sum compared with `k` copies of a bound; an index off the bound makes it strict. */
  lemma {:induction false} SumBetween(a: seq<int>, c: int, k: nat, at: nat)
    requires k <= |a| && at < |a|
    ensures (forall i :: 0 <= i < k ==> c <= a[i]) ==> c * k + (if at < k && c < a[at] then 1 else 0) <= SumTo(a, k)
    ensures (forall i :: 0 <= i < k ==> a[i] <= c) ==> SumTo(a, k) <= c * k - (if at < k && a[at] < c then 1 else 0)
  {
    if k == 0 {
    } else {
      SumBetween(a, c, k - 1, at);
      assert c * k == c * (k - 1) + c;
    }
  }

  lemma EvenBounds(a: seq<int>, base: nat, n: nat, i: nat)
    requires i < |a| && Even(a, base, n)
    ensures base + n / |a| <= a[i] <= base + CeilDiv(n, |a|)
  {
    var d := |a|;
    var lo, hi := base + n / d, base + CeilDiv(n, d);
    DivisionBounds(base, n, d);
    if a[i] < lo {
      assert forall j :: 0 <= j < d ==> a[j] <= lo;
      SumBetween(a, lo, d, i);
    }
    if a[i] > hi {
      assert forall j :: 0 <= j < d ==> hi <= a[j];
      SumBetween(a, hi, d, i);
    }
  }

  lemma DivisionBounds(base: nat, n: nat, d: nat)
    requires d > 0
    ensures (base + n / d) * d <= base * d + n <= (base + CeilDiv(n, d)) * d
  {
    var q, c := n / d, CeilDiv(n, d);
    QuotientBounds(n, d);
    QuotientBounds(n + d - 1, d);
    Distribute(d, c, 1);
    Distribute(d, base, q);
    Distribute(d, base, c);
  }
}
