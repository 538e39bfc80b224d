/** Data shared by the whole model: bounded machine integers, durations and the
    per-backend metrics record. */
module Metrics {

  datatype Option<+T> = None | Some(value: T)

  const U16_MAX := 0xFFFF
  const U32_MAX := 0xFFFF_FFFF
  const U64_MAX := 0xFFFF_FFFF_FFFF_FFFF

  type U32 = n: nat | n <= U32_MAX
  type U64 = n: nat | n <= U64_MAX

  const NANOS_PER_MICRO := 1_000
  const NANOS_PER_MILLI := 1_000_000
  /** `Duration::MAX` in nanoseconds. */
  const DURATION_MAX := U64_MAX * 1_000_000_000 + 999_999_999

  /** A duration, in nanoseconds. */
  type Duration = d: nat | d <= DURATION_MAX

  /** Live metrics of one backend. */
  datatype TunnelMetrics = TunnelMetrics(
    rtt: Option<Duration>,
    activeConnections: U32,
    recentErrors: U32,
    totalDials: U64,
    totalErrors: U64)

  /** `TunnelMetrics::default()`. */
  const DEFAULT_METRICS := TunnelMetrics(None, 0, 0, 0, 0)

  /** Unchecked `+ 1`, which wraps in a build without overflow checks. */
  function IncWrap32(n: U32): U32 { if n == U32_MAX then 0 else n + 1 }

  function IncWrap64(n: U64): U64 { if n == U64_MAX then 0 else n + 1 }

  /** `saturating_add(1)`. */
  function IncSat32(n: U32): U32 { if n == U32_MAX then n else n + 1 }

  function IncSat64(n: U64): U64 { if n == U64_MAX then n else n + 1 }

  /** `saturating_sub(1)`. */
  function DecSat(n: U32): U32 { if n == 0 then 0 else n - 1 }

  function Min(a: int, b: int): int { if a < b then a else b }

  function Max(a: int, b: int): int { if a < b then b else a }

  function Rtts(metrics: seq<TunnelMetrics>): (r: seq<Option<Duration>>)
    ensures |r| == |metrics|
    ensures forall i :: 0 <= i < |r| ==> r[i] == metrics[i].rtt
  {
    seq(|metrics|, i requires 0 <= i < |metrics| => metrics[i].rtt)
  }

  /** The sum of the first `k` elements. */
  function SumTo(s: seq<int>, k: nat): int
    requires k <= |s|
  {
    if k == 0 then 0 else SumTo(s, k - 1) + s[k - 1]
  }

  function Sum(s: seq<int>): int { SumTo(s, |s|) }

  lemma {:induction false} SumToUpdate(s: seq<int>, i: nat, v: int, k: nat)
    requires i < |s| && k <= |s|
    ensures SumTo(s[i := v], k) == SumTo(s, k) + (if i < k then v - s[i] else 0)
  {
    if k == 0 {
    } else {
      SumToUpdate(s, i, v, k - 1);
    }
  }

  /** Pointwise-bounded sequences with equal sums are equal. */
  lemma {:induction false} SumToPinches(a: seq<int>, b: seq<int>, k: nat)
    requires |a| == |b| && k <= |a|
    requires forall i :: 0 <= i < k ==> a[i] <= b[i]
    ensures SumTo(a, k) <= SumTo(b, k)
    ensures SumTo(a, k) == SumTo(b, k) ==> forall i :: 0 <= i < k ==> a[i] == b[i]
  {
    if k == 0 {
    } else {
      SumToPinches(a, b, k - 1);
    }
  }
}
