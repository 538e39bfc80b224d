/** The weighted round-robin scheduler: the exact greedy schedule, its fairness
    theorems, and the u64 machine that runs it. */
module WeightedRoundRobin {
  import opened Arithmetic
  import opened Metrics

  const MS_PER_SECOND := 1000
  const MIN_WEIGHT := 1

  /** Every pick counter up to this value keeps all cross products inside u64. */
  const PICK_LIMIT := U64_MAX / MS_PER_SECOND

  // ---------------------------------------------------------------- weights

  /** Inverse-RTT weight. A millisecond count too large for u64 is read as 1. */
  function Weight(rtt: Option<Duration>): (w: nat)
    ensures MIN_WEIGHT <= w <= MS_PER_SECOND
  {
    match rtt
    case None => MIN_WEIGHT
    case Some(d) =>
      var millis := d / NANOS_PER_MILLI;
      var ms := Max(if millis <= U64_MAX then millis else 1, 1);
      Max(MS_PER_SECOND / ms, MIN_WEIGHT)
  }

  function WeightsOf(rtts: seq<Option<Duration>>): (w: seq<nat>)
    ensures |w| == |rtts| && Positive(w)
    ensures forall i :: 0 <= i < |w| ==> w[i] == Weight(rtts[i])
  {
    seq(|rtts|, i requires 0 <= i < |rtts| => Weight(rtts[i]))
  }

  predicate Positive(w: seq<nat>) {
    forall i :: 0 <= i < |w| ==> 1 <= w[i] <= MS_PER_SECOND
  }

  /** A share that is inverse to the RTT: as many whole times as its milliseconds go into 1000,
      but at least 1. Less than a millisecond counts as one, and so does a millisecond count
      that does not fit u64. An unknown RTT has share 1. */
  predicate InverseTo(share: int, rtt: Option<Duration>) {
    match rtt
    case None => share == 1
    case Some(d) =>
      var ms := d / 1_000_000;
      && (ms == 0 ==> share == 1000)
      && (1 <= ms <= 1000 ==> share * ms <= 1000 < (share + 1) * ms)
      && (1000 < ms <= U64_MAX ==> share == 1)
      && (U64_MAX < ms ==> share == 1000)
  }

  lemma WeightIsInverse(rtt: Option<Duration>)
    ensures InverseTo(Weight(rtt), rtt)
  {
    if rtt.Some? {
      var ms := rtt.value / 1_000_000;
      if 1 <= ms <= 1000 {
        QuotientBounds(1000, ms);
        DivisionAntitone(ms, 1000);
      } else if 1000 < ms {
        QuotientUnique(1000, ms, 0);
      }
    }
  }

  /** A faster backend never weighs less, exactly when the slower one's RTT fits u64
      milliseconds or the faster one already has the top weight. */
  lemma WeightAntitoneIff(fast: Duration, slow: Duration)
    requires fast <= slow
    ensures Weight(Some(slow)) <= Weight(Some(fast))
            <==> slow / NANOS_PER_MILLI <= U64_MAX
                 || fast / NANOS_PER_MILLI <= 1
                 || fast / NANOS_PER_MILLI > U64_MAX
  {
    var f, s := fast / NANOS_PER_MILLI, slow / NANOS_PER_MILLI;
    assert f <= s;
    if s <= U64_MAX {
      DivisionAntitone(Max(f, 1), Max(s, 1));
    } else if 1 < f <= U64_MAX {
      DivisionAntitone(2, f);
    }
  }

  lemma DivisionAntitone(a: nat, b: nat)
    requires 1 <= a <= b
    ensures MS_PER_SECOND / b <= MS_PER_SECOND / a
  {
    var q, t := MS_PER_SECOND / b, MS_PER_SECOND / a;
    if q > 0 {
      QuotientBounds(MS_PER_SECOND, a);
      QuotientBounds(MS_PER_SECOND, b);
      MulMonotone(a, b, q);
      Chain(q, t, a, b);
    }
  }

  lemma Chain(q: int, t: int, a: int, b: int)
    requires a > 0 && a * q <= b * q && q * b < (t + 1) * a
    ensures q <= t
  {
    MulCancel(q, t + 1, a);
  }

  // --------------------------------------------------------- exact schedule

  /** The ratio `a / wa` is below `b / wb`. */
  predicate Below(a: nat, wa: nat, b: nat, wb: nat) { a * wb < b * wa }

  /** `picks[b] / weights[b]` is the leftmost minimum of the first `k` ratios. */
  ghost predicate LeftmostMin(p: seq<nat>, w: seq<nat>, b: nat, k: nat)
    requires k <= |p| == |w|
  {
    && b < k
    && (forall i :: 0 <= i < k ==> !Below(p[i], w[i], p[b], w[b]))
    && (forall i :: 0 <= i < b ==> Below(p[b], w[b], p[i], w[i]))
  }

  /** The scan over exact integers. */
  function Scan(p: seq<nat>, w: seq<nat>, k: nat): (b: nat)
    requires 0 < k <= |p| == |w|
    ensures b < k
  {
    if k == 1 then 0
    else
      var b := Scan(p, w, k - 1);
      if Below(p[k - 1], w[k - 1], p[b], w[b]) then k - 1 else b
  }

  function Best(p: seq<nat>, w: seq<nat>): (b: nat)
    requires 0 < |p| == |w|
    ensures b < |w|
  {
    Scan(p, w, |w|)
  }

  lemma RatioTransitive(a: nat, wa: nat, b: nat, wb: nat, c: nat, wc: nat)
    requires wa > 0 && wb > 0 && wc > 0
    requires Below(a, wa, b, wb) && !Below(c, wc, b, wb)
    ensures Below(a, wa, c, wc)
  {
    calc {
      (a * wc) * wb;
      { Reorder(a, wc, wb); }
      (a * wb) * wc;
      < { MulMonotone(a * wb, b * wa, wc); }
      (b * wa) * wc;
      { Reorder(b, wa, wc); }
      (b * wc) * wa;
      <= { MulMonotone(b * wc, c * wb, wa); }
      (c * wb) * wa;
      { Reorder(c, wb, wa); }
      (c * wa) * wb;
    }
    MulCancel(a * wc, c * wa, wb);
  }

  lemma NotBelowItself(a: nat, wa: nat)
    ensures !Below(a, wa, a, wa)
  {}

  lemma Asymmetric(a: nat, wa: nat, b: nat, wb: nat)
    requires Below(a, wa, b, wb)
    ensures !Below(b, wb, a, wa)
  {}

  /** The one-pass scan finds the leftmost minimal ratio. */
  lemma {:induction false} ScanIsLeftmostMin(p: seq<nat>, w: seq<nat>, k: nat)
    requires 0 < k <= |p| == |w| && Positive(w)
    ensures LeftmostMin(p, w, Scan(p, w, k), k)
  {
    hide Below;
    if k == 1 {
      NotBelowItself(p[0], w[0]);
    } else {
      ScanIsLeftmostMin(p, w, k - 1);
      var b, c := Scan(p, w, k - 1), k - 1;
      NotBelowItself(p[c], w[c]);
      if Below(p[c], w[c], p[b], w[b]) {
        forall i | 0 <= i < c ensures Below(p[c], w[c], p[i], w[i]) && !Below(p[i], w[i], p[c], w[c]) {
          RatioTransitive(p[c], w[c], p[b], w[b], p[i], w[i]);
          Asymmetric(p[c], w[c], p[i], w[i]);
        }
      }
    }
  }

  /** The pick counters after `n` picks from a rebuild. */
  function Counts(w: seq<nat>, n: nat): (p: seq<nat>)
    ensures |p| == |w|
  {
    if n == 0 || w == [] then seq(|w|, _ => 0)
    else
      var p := Counts(w, n - 1);
      var b := Best(p, w);
      p[b := p[b] + 1]
  }

  /** The backend chosen by pick number `n`, counted from 0. */
  function Turn(w: seq<nat>, n: nat): (b: nat)
    requires w != []
    ensures b < |w|
  {
    Best(Counts(w, n), w)
  }

  /** The ratio `(a - 1) / wa` is not above `b / wb`. */
  predicate Due(a: nat, wa: nat, b: nat, wb: nat) { a * wb <= b * wa + wb }

  /** When `i` was last served, no backend had a smaller ratio. */
  ghost predicate Fair(p: seq<nat>, w: seq<nat>)
    requires |p| == |w|
  {
    forall i, j :: 0 <= i < |p| && 0 <= j < |p| ==> Due(p[i], w[i], p[j], w[j])
  }

  lemma {:induction false} CountsFair(w: seq<nat>, n: nat)
    requires Positive(w)
    ensures Fair(Counts(w, n), w)
  {
    if n == 0 || w == [] {
    } else {
      CountsFair(w, n - 1);
      var p := Counts(w, n - 1);
      ScanIsLeftmostMin(p, w, |w|);
      PickKeepsFair(p, w, Best(p, w));
    }
  }

  lemma ServedIsDue(a: nat, wa: nat, b: nat, wb: nat)
    requires !Below(b, wb, a, wa)
    ensures Due(a + 1, wa, b, wb) && Due(a + 1, wa, a + 1, wa)
  {
    Distribute(wb, a, 1);
  }

  lemma OtherServedStaysDue(a: nat, wa: nat, b: nat, wb: nat)
    requires Due(a, wa, b, wb)
    ensures Due(a, wa, b + 1, wb)
  {
    Distribute(wa, b, 1);
  }

  lemma PickKeepsFair(p: seq<nat>, w: seq<nat>, b: nat)
    requires |p| == |w| && Positive(w) && Fair(p, w)
    requires b < |p| && LeftmostMin(p, w, b, |p|)
    ensures Fair(p[b := p[b] + 1], w)
  {
    hide Due, Below;
    var q := p[b := p[b] + 1];
    forall i, j | 0 <= i < |q| && 0 <= j < |q| ensures Due(q[i], w[i], q[j], w[j]) {
      if i == b {
        ServedIsDue(p[b], w[b], p[j], w[j]);
      } else {
        assert Due(p[i], w[i], p[j], w[j]);
        OtherServedStaysDue(p[i], w[i], p[j], w[j]);
      }
    }
  }

  lemma {:induction false} CountsSum(w: seq<nat>, n: nat)
    requires w != []
    ensures Sum(Counts(w, n)) == n
  {
    if n == 0 {
      ZerosSum(Counts(w, 0), |w|);
    } else {
      CountsSum(w, n - 1);
      var p := Counts(w, n - 1);
      var b := Best(p, w);
      SumToUpdate(p, b, p[b] + 1, |p|);
    }
  }

  lemma {:induction false} ZerosSum(s: seq<int>, k: nat)
    requires k <= |s| && forall i :: 0 <= i < k ==> s[i] == 0
    ensures SumTo(s, k) == 0
  {
    if k == 0 {
    } else {
      ZerosSum(s, k - 1);
    }
  }

  lemma {:induction false} LagAbove(p: seq<nat>, w: seq<nat>, i: nat, k: nat)
    requires |p| == |w| && Fair(p, w) && i < |p| && k <= |p|
    ensures p[i] * SumTo(w, k) + (if i < k then w[i] else 0) <= SumTo(p, k) * w[i] + SumTo(w, k)
  {
    if k == 0 {
    } else {
      var l := k - 1;
      LagAbove(p, w, i, l);
      assert Due(p[i], w[i], p[l], w[l]);
      hide Fair;
      AddTerms(p[i], SumTo(w, l), w[l], w[i], SumTo(p, l), p[l], if i < l then w[i] else 0, SumTo(w, l),
               if i == l then w[i] else 0, w[l]);
    }
  }

  lemma {:induction false} LagBelow(p: seq<nat>, w: seq<nat>, i: nat, k: nat)
    requires |p| == |w| && Fair(p, w) && i < |p| && k <= |p|
    ensures SumTo(p, k) * w[i] + (if i < k then w[i] else 0) <= p[i] * SumTo(w, k) + k * w[i]
  {
    if k == 0 {
    } else {
      var l := k - 1;
      LagBelow(p, w, i, l);
      assert Due(p[l], w[l], p[i], w[i]);
      hide Fair;
      AddTermsBelow(p[i], SumTo(w, l), w[l], w[i], SumTo(p, l), p[l], if i < l then w[i] else 0, l * w[i],
                    if i == l then w[i] else 0, w[i]);
      Distribute(w[i], l, 1);
    }
  }

  lemma AddTerms(a: int, x: int, x': int, b: int, y: int, y': int, e: int, f: int, e': int, f': int)
    requires a * x + e <= y * b + f && a * x' + e' <= y' * b + f'
    ensures a * (x + x') + (e + e') <= (y + y') * b + (f + f')
  {
    Distribute(a, x, x');
    Distribute(b, y, y');
  }

  lemma AddTermsBelow(a: int, x: int, x': int, b: int, y: int, y': int, e: int, f: int, e': int, f': int)
    requires y * b + e <= a * x + f && y' * b + e' <= a * x' + f'
    ensures (y + y') * b + (e + e') <= a * (x + x') + (f + f')
  {
    Distribute(a, x, x');
    Distribute(b, y, y');
  }

  /** Two-sided lag bound at every moment: after `n` picks each backend's share stays
      within one pick above and |w| - 1 picks below its proportional share. */
  lemma LagBounds(w: seq<nat>, n: nat, i: nat)
    requires Positive(w) && i < |w|
    ensures var share: int := Counts(w, n)[i];
            && (share - 1) * Sum(w) <= (n - 1) * w[i]
            && (n - |w| + 1) * w[i] <= share * Sum(w)
  {
    var p := Counts(w, n);
    CountsFair(w, n);
    CountsSum(w, n);
    LagAbove(p, w, i, |w|);
    LagBelow(p, w, i, |w|);
    Distribute(Sum(w), p[i], -1);
    Distribute(w[i], n, -1);
    Distribute(w[i], n, 1 - |w|);
    Distribute(w[i], 1, -|w|);
  }

  /** A backend that weighs at least as much is never more than one pick behind. */
  lemma HeavierNotBehind(w: seq<nat>, n: nat, i: nat, j: nat)
    requires Positive(w) && i < |w| && j < |w| && w[j] <= w[i]
    ensures Counts(w, n)[j] <= Counts(w, n)[i] + 1
  {
    var p := Counts(w, n);
    CountsFair(w, n);
    LeadOfOne(p[i], w[i], p[j], w[j]);
  }

  lemma LeadOfOne(a: nat, wa: nat, b: nat, wb: nat)
    requires 0 < wb <= wa && b * wa <= a * wb + wa
    ensures b <= a + 1
  {
    assert a * wb <= a * wa;
    assert (a + 2) * wa == a * wa + wa + wa;
    MulCancel(b, a + 2, wa);
  }

  /** The first `Sum(w)` picks serve every backend exactly its weight. */
  lemma ExactCycle(w: seq<nat>)
    requires Positive(w) && w != []
    ensures Sum(w) > 0 && Counts(w, Sum(w)) == w
  {
    WeightsAddUp(w, |w|);
    var total := Sum(w);
    var p := Counts(w, total);
    forall i | 0 <= i < |w| ensures p[i] <= w[i] {
      LagBounds(w, total, i);
      NotAbove(p[i], w[i], total);
    }
    CountsSum(w, total);
    SumToPinches(p, w, |w|);
  }

  lemma NotAbove(share: int, weight: int, total: int)
    requires 0 < weight && 0 < total && (share - 1) * total <= (total - 1) * weight
    ensures share <= weight
  {
    assert (total - 1) * weight == weight * total - weight;
    MulCancel(share - 1, weight, total);
  }

  lemma {:induction false} WeightsAddUp(w: seq<nat>, k: nat)
    requires Positive(w) && k <= |w|
    ensures k <= SumTo(w, k)
  {
    if k == 0 {
    } else {
      WeightsAddUp(w, k - 1);
    }
  }

  function Plus(a: seq<nat>, b: seq<nat>): (c: seq<nat>)
    requires |a| == |b|
    ensures |c| == |a|
  {
    seq(|a|, i requires 0 <= i < |a| => a[i] + b[i])
  }

  lemma {:induction false} ScanShift(p: seq<nat>, w: seq<nat>, k: nat)
    requires 0 < k <= |p| == |w|
    ensures Scan(Plus(p, w), w, k) == Scan(p, w, k)
  {
    if k == 1 {
    } else {
      ScanShift(p, w, k - 1);
      var b, c := Scan(p, w, k - 1), k - 1;
      Distribute(w[b], p[c], w[c]);
      Distribute(w[c], p[b], w[b]);
    }
  }

  /** The schedule repeats: a whole cycle later every counter has grown by its weight. */
  lemma {:induction false} CountsPeriodic(w: seq<nat>, n: nat)
    requires Positive(w) && w != []
    ensures Sum(w) > 0 && Counts(w, n + Sum(w)) == Plus(Counts(w, n), w)
  {
    hide Scan;
    ExactCycle(w);
    if n == 0 {
    } else {
      CountsPeriodic(w, n - 1);
      var p := Counts(w, n - 1);
      ScanShift(p, w, |w|);
    }
  }

  /** One backend is never more than one pick behind another exactly when it weighs at least
      as much: otherwise two whole cycles put it two behind. */
  lemma HeavierNotBehindIff(w: seq<nat>, i: nat, j: nat)
    requires Positive(w) && i < |w| && j < |w|
    ensures (forall n: nat :: Counts(w, n)[j] <= Counts(w, n)[i] + 1) <==> w[j] <= w[i]
  {
    if w[j] <= w[i] {
      forall n: nat ensures Counts(w, n)[j] <= Counts(w, n)[i] + 1 { HeavierNotBehind(w, n, i, j); }
    } else {
      ExactCycle(w);
      CountsPeriodic(w, Sum(w));
      var p := Counts(w, Sum(w) + Sum(w));
      assert p[j] == w[j] + w[j] && p[i] == w[i] + w[i];
    }
  }

  /** A backend whose known RTT is no larger is never more than one pick behind, exactly when
      the other RTT is unknown or fits u64 milliseconds, or its own weight is at the top. */
  lemma FasterNotBehindIff(rtts: seq<Option<Duration>>, i: nat, j: nat)
    requires i < |rtts| && j < |rtts| && rtts[i].Some?
    requires rtts[j].None? || rtts[i].value <= rtts[j].value
    ensures (forall n: nat :: Counts(WeightsOf(rtts), n)[j] <= Counts(WeightsOf(rtts), n)[i] + 1)
            <==> || rtts[j].None?
                 || rtts[j].value / NANOS_PER_MILLI <= U64_MAX
                 || rtts[i].value / NANOS_PER_MILLI <= 1
                 || rtts[i].value / NANOS_PER_MILLI > U64_MAX
  {
    hide Weight, Counts;
    HeavierNotBehindIff(WeightsOf(rtts), i, j);
    if rtts[j].Some? {
      WeightAntitoneIff(rtts[i].value, rtts[j].value);
    } else {
      UnknownIsLightest(rtts[i]);
    }
  }

  lemma UnknownIsLightest(rtt: Option<Duration>)
    ensures Weight(None) <= Weight(rtt)
  {}

  /** The failing case: a one-second backend beside one whose RTT exceeds u64 milliseconds is
      served once in 1001 picks. */
  lemma HugeRttOvertakes()
    ensures Counts(WeightsOf([Some(1_000_000_000), Some(DURATION_MAX)]), 1001) == [1, 1000]
  {
    var w := WeightsOf([Some(1_000_000_000), Some(DURATION_MAX)]);
    assert w == [1, 1000];
    assert SumTo(w, 1) == SumTo(w, 0) + w[0] && SumTo(w, 2) == SumTo(w, 1) + w[1] && w[0] == 1 && w[1] == 1000;
    ExactCycle(w);
  }

  /** Pick `n + Sum(w)` equals pick `n`. */
  lemma TurnPeriodic(w: seq<nat>, n: nat)
    requires Positive(w) && w != []
    ensures Sum(w) > 0 && Turn(w, n + Sum(w)) == Turn(w, n)
  {
    CountsPeriodic(w, n);
    ScanShift(Counts(w, n), w, |w|);
  }

  /** The picks numbered `from` up to `from + len`. */
  function Window(w: seq<nat>, from: nat, len: nat): (picks: seq<nat>)
    requires w != []
    ensures |picks| == len
  {
    if len == 0 then [] else Window(w, from, len - 1) + [Turn(w, from + len - 1)]
  }

  lemma TurnCounts(w: seq<nat>, n: nat, i: nat)
    requires i < |w|
    ensures Counts(w, n + 1)[i] == Counts(w, n)[i] + (if Turn(w, n) == i then 1 else 0)
  {}

  function Occurrences(s: seq<nat>, x: nat): nat {
    if s == [] then 0
    else Occurrences(s[..|s| - 1], x) + (if s[|s| - 1] == x then 1 else 0)
  }

  lemma {:induction false} OccurrencesIsMultiplicity(s: seq<nat>, x: nat)
    ensures multiset(s)[x] == Occurrences(s, x)
  {
    if s == [] {
    } else {
      OccurrencesIsMultiplicity(s[..|s| - 1], x);
      assert s == s[..|s| - 1] + [s[|s| - 1]];
    }
  }

  lemma {:induction false} WindowCounts(w: seq<nat>, from: nat, len: nat, i: nat)
    requires i < |w|
    ensures Counts(w, from)[i] + Occurrences(Window(w, from, len), i) == Counts(w, from + len)[i]
  {
    hide Counts, Turn;
    if len == 0 {
    } else {
      var s, t := Window(w, from, len - 1), Turn(w, from + len - 1);
      WindowCounts(w, from, len - 1, i);
      TurnCounts(w, from + len - 1, i);
      assert (s + [t])[..|s|] == s;
    }
  }

  /** Any window of `Sum(w)` consecutive picks serves each backend exactly its weight. */
  lemma AnyWindowIsExact(w: seq<nat>, from: nat, i: nat)
    requires Positive(w) && i < |w|
    ensures Sum(w) > 0 && multiset(Window(w, from, Sum(w)))[i] == w[i]
  {
    CountsPeriodic(w, from);
    WindowCounts(w, from, Sum(w), i);
    OccurrencesIsMultiplicity(Window(w, from, Sum(w)), i);
  }

  /** So in any cycle a backend's picks are inverse to its RTT. */
  lemma WindowInverseToRtt(rtts: seq<Option<Duration>>, from: nat, i: nat)
    requires i < |rtts|
    ensures Sum(WeightsOf(rtts)) > 0
    ensures InverseTo(multiset(Window(WeightsOf(rtts), from, Sum(WeightsOf(rtts))))[i], rtts[i])
  {
    hide Weight, InverseTo;
    AnyWindowIsExact(WeightsOf(rtts), from, i);
    WeightIsInverse(rtts[i]);
  }

  // ------------------------------------------------------------ u64 machine

  /** The strategy's fields. */
  datatype Wrr = Wrr(rtts: seq<Option<Duration>>, weights: seq<nat>, picks: seq<U64>)

  const FRESH := Wrr([], [], [])

  ghost predicate WellFormed(s: Wrr) {
    s.weights == WeightsOf(s.rtts) && |s.picks| == |s.weights|
  }

  function Mul64(a: nat, b: nat): nat { (a * b) % 0x1_0000_0000_0000_0000 }

  function Scan64(p: seq<U64>, w: seq<nat>, k: nat): (b: nat)
    requires 0 < k <= |p| == |w|
    ensures b < k
  {
    if k == 1 then 0
    else
      var b := Scan64(p, w, k - 1);
      if Mul64(p[k - 1], w[b]) < Mul64(p[b], w[k - 1]) then k - 1 else b
  }

  /** The counters are reset when the RTT vector differs from the remembered one. */
  function Refresh(s: Wrr, view: seq<Option<Duration>>): (r: Wrr)
    requires WellFormed(s)
    ensures WellFormed(r) && r.rtts == view
  {
    if s.rtts == view then s else Wrr(view, WeightsOf(view), seq(|view|, _ => 0))
  }

  /** One `pick`: the next state and the chosen index (0 for an empty pool). */
  function PickStep(s: Wrr, view: seq<Option<Duration>>): (r: (Wrr, nat))
    requires WellFormed(s)
    ensures WellFormed(r.0) && r.0.rtts == view
    ensures view != [] ==> r.1 < |view|
  {
    var t := Refresh(s, view);
    if view == [] then (t, 0)
    else
      var b := Scan64(t.picks, t.weights, |t.weights|);
      (t.(picks := t.picks[b := IncWrap64(t.picks[b])]), b)
  }

  lemma RefreshFirst(s: Wrr, view: seq<Option<Duration>>)
    requires WellFormed(s)
    ensures var t := Refresh(s, view); WellFormed(t) && t.rtts == view && PickStep(t, view) == PickStep(s, view)
  {
    hide Scan64;
  }

  /** No product of a counter and another backend's weight overflows u64. */
  predicate Fits(p: seq<nat>, w: seq<nat>) {
    forall i, j :: 0 <= i < |p| && 0 <= j < |w| && i != j ==> p[i] * w[j] <= U64_MAX
  }

  predicate AtMost(p: seq<nat>, limit: nat) {
    forall i :: 0 <= i < |p| ==> p[i] <= limit
  }

  /** Counters up to PICK_LIMIT are safe whatever the weights. */
  lemma SmallFits(p: seq<nat>, w: seq<nat>)
    requires Positive(w) && AtMost(p, PICK_LIMIT)
    ensures Fits(p, w)
  {
    forall i, j | 0 <= i < |p| && 0 <= j < |w| ensures p[i] * w[j] <= U64_MAX { ProductFits(p[i], w[j]); }
  }

  lemma ProductFits(p: nat, w: nat)
    requires p <= PICK_LIMIT && w <= MS_PER_SECOND
    ensures p * w <= U64_MAX
  {
    assert p * w <= PICK_LIMIT * MS_PER_SECOND <= U64_MAX;
  }

  /** While no product overflows, the u64 scan is the exact one. */
  lemma {:induction false} ScanRefinesExact(p: seq<U64>, w: seq<nat>, k: nat)
    requires 0 < k <= |p| == |w| && Fits(p, w)
    ensures Scan64(p, w, k) == Scan(p, w, k)
  {
    hide Fits, Mul64;
    if k == 1 {
    } else {
      ScanRefinesExact(p, w, k - 1);
      var b := Scan(p, w, k - 1);
      ExactProduct(p, w, k - 1, b);
      ExactProduct(p, w, b, k - 1);
    }
  }

  lemma ExactProduct(p: seq<nat>, w: seq<nat>, i: nat, j: nat)
    requires Fits(p, w) && i < |p| && j < |w| && i != j
    ensures Mul64(p[i], w[j]) == p[i] * w[j]
  {}

  /** The state after a sequence of picks, each over the given RTT vector. */
  function Run(views: seq<seq<Option<Duration>>>): (s: Wrr)
    ensures WellFormed(s)
    ensures views != [] ==> s.rtts == views[|views| - 1]
  {
    if views == [] then FRESH else PickStep(Run(views[..|views| - 1]), views[|views| - 1]).0
  }

  /** How many picks have seen the latest RTT vector since it last changed. */
  function Streak(views: seq<seq<Option<Duration>>>): (n: nat)
    ensures views != [] ==> n > 0
  {
    if views == [] then 0
    else
      var before, last := views[..|views| - 1], views[|views| - 1];
      if before == [] || before[|before| - 1] != last then 1 else Streak(before) + 1
  }

  /** At every pick, the exact schedule's products fit u64 before it and its counters after. */
  predicate WithinLimit(views: seq<seq<Option<Duration>>>) {
    views == [] ||
    (var w, n := WeightsOf(views[|views| - 1]), Streak(views);
     && Fits(Counts(w, n - 1), w) && AtMost(Counts(w, n), U64_MAX)
     && WithinLimit(views[..|views| - 1]))
  }

  predicate ShortStreaks(views: seq<seq<Option<Duration>>>) {
    views == [] || (Streak(views) <= PICK_LIMIT && ShortStreaks(views[..|views| - 1]))
  }

  /** It is enough that no RTT vector stays unchanged for more than PICK_LIMIT picks. */
  lemma {:induction false} ShortStreaksFit(views: seq<seq<Option<Duration>>>)
    requires ShortStreaks(views)
    ensures WithinLimit(views)
  {
    if views == [] {
    } else {
      ShortStreaksFit(views[..|views| - 1]);
      var w, n := WeightsOf(views[|views| - 1]), Streak(views);
      CountsBounded(w, n - 1);
      CountsBounded(w, n);
      SmallFits(Counts(w, n - 1), w);
    }
  }

  lemma {:induction false} CountsBounded(w: seq<nat>, n: nat)
    ensures AtMost(Counts(w, n), n)
  {
    if n == 0 {
    } else {
      CountsBounded(w, n - 1);
    }
  }

  /** From the exact counters after `n` picks, one u64 pick is turn `n` if nothing overflows. */
  lemma PickFollowsSchedule(t: Wrr, n: nat)
    requires WellFormed(t) && t.rtts != [] && t.picks == Counts(t.weights, n)
    requires Fits(t.picks, t.weights) && AtMost(Counts(t.weights, n + 1), U64_MAX)
    ensures PickStep(t, t.rtts).0.picks == Counts(t.weights, n + 1)
    ensures PickStep(t, t.rtts).1 == Turn(t.weights, n)
  {
    hide Scan, Scan64;
    var w := t.weights;
    ScanRefinesExact(t.picks, w, |w|);
    var b := Turn(w, n);
    assert Counts(w, n + 1) == Counts(w, n)[b := Counts(w, n)[b] + 1];
  }

  /** Every reachable u64 state is the exact schedule counted from the last RTT change,
      and the pick that led to it was that schedule's turn. */
  lemma {:induction false} ReachableIsSchedule(views: seq<seq<Option<Duration>>>)
    requires WithinLimit(views) && views != []
    ensures var last := views[|views| - 1];
            var w, n := WeightsOf(last), Streak(views);
            && Run(views).weights == w && Run(views).picks == Counts(w, n)
            && (last != [] ==> PickStep(Run(views[..|views| - 1]), last).1 == Turn(w, n - 1))
  {
    hide Scan, Scan64;
    var before, last := views[..|views| - 1], views[|views| - 1];
    var w, n := WeightsOf(last), Streak(views);
    var t := Refresh(Run(before), last);
    assert t.picks == Counts(w, n - 1) by {
      if before == [] {
      } else {
        ReachableIsSchedule(before);
      }
    }
    if last == [] {
    } else {
      PickFollowsSchedule(t, n - 1);
    }
  }

  /** Two backends at 1 ms, seen by `k` picks. */
  function TwinViews(k: nat): (views: seq<seq<Option<Duration>>>)
    ensures |views| == k && forall i :: 0 <= i < k ==> views[i] == [Some(NANOS_PER_MILLI), Some(NANOS_PER_MILLI)]
  {
    seq(k, _ => [Some(NANOS_PER_MILLI), Some(NANOS_PER_MILLI)])
  }

  /** A case past the limit: two backends at top weight stay within it for 2 * PICK_LIMIT + 1
      picks, and the very next u64 pick is not the schedule's turn. */
  lemma PastLimitGoesWrong()
    ensures var n := 2 * PICK_LIMIT + 1;
            var s, w := Run(TwinViews(n)), [MS_PER_SECOND, MS_PER_SECOND];
            && WithinLimit(TwinViews(n))
            && s.weights == w && s.picks == [PICK_LIMIT + 1, PICK_LIMIT]
            && PickStep(s, s.rtts).1 == 0 && Turn(w, n) == 1
  {
    hide Scan, Counts, Run, Streak, WithinLimit, Weight;
    var n, w := 2 * PICK_LIMIT + 1, [MS_PER_SECOND, MS_PER_SECOND];
    TwinsWithinLimit(n);
    TwinStreak(n);
    ReachableIsSchedule(TwinViews(n));
    Alternates(PICK_LIMIT);
    TwinWeights();
    EqualPair(w, PICK_LIMIT + 1, PICK_LIMIT);
    WrapsPastLimit();
  }

  lemma TwinWeights()
    ensures WeightsOf([Some(NANOS_PER_MILLI), Some(NANOS_PER_MILLI)]) == [MS_PER_SECOND, MS_PER_SECOND]
  {}

  lemma WrapsPastLimit()
    ensures Scan64([PICK_LIMIT + 1, PICK_LIMIT], [MS_PER_SECOND, MS_PER_SECOND], 2) == 0
  {}

  lemma {:induction false} TwinStreak(k: nat)
    ensures Streak(TwinViews(k)) == k
  {
    if k == 0 {
    } else {
      assert TwinViews(k)[..k - 1] == TwinViews(k - 1);
      TwinStreak(k - 1);
    }
  }

  lemma TwinCounts(n: nat)
    ensures Counts([MS_PER_SECOND, MS_PER_SECOND], n) == [(n + 1) / 2, n / 2]
  {
    Alternates(n / 2);
  }

  lemma {:induction false} TwinsWithinLimit(k: nat)
    requires k <= 2 * PICK_LIMIT + 1
    ensures WithinLimit(TwinViews(k))
  {
    hide Counts, Streak, Weight, Fits;
    if k == 0 {
    } else {
      assert TwinViews(k)[..k - 1] == TwinViews(k - 1);
      TwinsWithinLimit(k - 1);
      TwinStreak(k);
      TwinWeights();
      TwinCounts(k - 1);
      TwinCounts(k);
      SmallFits(Counts([MS_PER_SECOND, MS_PER_SECOND], k - 1), [MS_PER_SECOND, MS_PER_SECOND]);
    }
  }

  lemma {:induction false} Alternates(k: nat)
    ensures var w := [MS_PER_SECOND, MS_PER_SECOND];
            Counts(w, 2 * k) == [k, k] && Counts(w, 2 * k + 1) == [k + 1, k]
  {
    var w := [MS_PER_SECOND, MS_PER_SECOND];
    if k == 0 {
      assert Counts(w, 0) == [0, 0];
    } else {
      Alternates(k - 1);
      assert 2 * (k - 1) + 1 == 2 * k - 1;
      EqualPair(w, k, k - 1);
      assert Counts(w, 2 * k) == [k, k];
    }
    EqualPair(w, k, k);
    assert Best([k, k], w) == 0;
    assert [k, k][0 := k + 1] == [k + 1, k];
  }

  lemma EqualPair(w: seq<nat>, a: nat, b: nat)
    requires w == [MS_PER_SECOND, MS_PER_SECOND]
    ensures Best([a, b], w) == if b < a then 1 else 0
  {
    var p := [a, b];
    assert Scan(p, w, 1) == 0;
    assert Scan(p, w, 2) == if p[1] * w[0] < p[0] * w[1] then 1 else 0;
  }

  class WeightedRoundRobin {
    var rtts: seq<Option<Duration>>
    var weights: seq<nat>
    var picks: seq<U64>

    ghost function State(): Wrr
      reads this
    {
      Wrr(rtts, weights, picks)
    }

    constructor ()
      ensures State() == FRESH
    {
      rtts, weights, picks := [], [], [];
    }

    method Rebuild()
      modifies `weights, `picks
      ensures weights == WeightsOf(rtts) && picks == seq(|rtts|, _ => 0)
    {
      weights := [];
      for i := 0 to |rtts|
        invariant weights == WeightsOf(rtts)[..i]
        modifies `weights
      {
        weights := weights + [Weight(rtts[i])];
      }
      picks := seq(|weights|, _ => 0);
    }

    method Pick(metrics: seq<TunnelMetrics>) returns (best: nat)
      requires WellFormed(State())
      modifies this
      ensures WellFormed(State())
      ensures (State(), best) == PickStep(old(State()), Rtts(metrics))
    {
      hide Mul64;
      var newRtts := Rtts(metrics);
      if newRtts != rtts {
        rtts := newRtts;
        Rebuild();
      }
      assert State() == Refresh(old(State()), newRtts);
      if |weights| == 0 {
        return 0;
      }
      best := 0;
      for i := 1 to |weights|
        invariant best == Scan64(picks, weights, i)
      {
        if Mul64(picks[i], weights[best]) < Mul64(picks[best], weights[i]) {
          best := i;
        }
      }
      picks := picks[best := IncWrap64(picks[best])];
    }
  }
}
