/** Retry policies and the loop in `dial_with_retry`. Delays are exact reals, in seconds. */
module Retry {
  import opened Errors
  import opened Metrics

  const I32_MAX := 0x7FFF_FFFF
  const JITTER_FACTOR := 0.5

  datatype Policy =
    | NoRetry
    | FixedRetry(delay: real, maxAttempts: Option<U32>)
    | ExponentialBackoff(baseDelay: real, maxDelay: real, multiplier: real,
                         maxAttempts: Option<U32>, jitter: bool)
    | RetryOnError(inner: Policy, filter: Error -> bool)

  function Pow(m: real, k: nat): real { if k == 0 then 1.0 else m * Pow(m, k - 1) }

  function MinReal(a: real, b: real): real { if a < b then a else b }

  /** An attempt number beyond i32 is replaced by exponent 0. */
  function Exponent(attempt: nat): nat { if attempt <= I32_MAX then attempt else 0 }

  function Delay(base: real, maxDelay: real, multiplier: real, attempt: nat): real {
    MinReal(base * Pow(multiplier, Exponent(attempt)), maxDelay)
  }

  function Jittered(delay: real, draw: real): real {
    (draw * JITTER_FACTOR + JITTER_FACTOR) * delay
  }

  function Spent(cap: Option<U32>, attempt: nat): bool { cap.Some? && attempt >= cap.value }

  /** `should_retry`: the delay before the next attempt, if there is to be one. */
  function ShouldRetry(p: Policy, attempt: nat, e: Error, draw: real): Option<real> {
    match p
    case NoRetry => None
    case FixedRetry(delay, cap) => if Spent(cap, attempt) then None else Some(delay)
    case ExponentialBackoff(base, maxDelay, multiplier, cap, jitter) =>
      if Spent(cap, attempt) then None
      else
        var delay := Delay(base, maxDelay, multiplier, attempt);
        Some(if jitter then Jittered(delay, draw) else delay)
    case RetryOnError(inner, accept) =>
      if accept(e) then ShouldRetry(inner, attempt, e, draw) else None
  }

  // ------------------------------------------------------- when the loop ends

  /** The conjunction of the predicates of a nest of `RetryOnError`. */
  predicate Accepts(p: Policy, e: Error) {
    p.RetryOnError? ==> p.filter(e) && Accepts(p.inner, e)
  }

  /** The most backend calls a policy permits, if it sets a bound. */
  function Limit(p: Policy): Option<nat> {
    match p
    case NoRetry => Some(1)
    case FixedRetry(_, cap) => if cap.Some? then Some(Max(1, cap.value)) else None
    case ExponentialBackoff(_, _, _, cap, _) => if cap.Some? then Some(Max(1, cap.value)) else None
    case RetryOnError(inner, _) => Limit(inner)
  }

  /** Any nest of policies reduces to one conjunction and one bound. */
  lemma {:induction false} NestReduces(p: Policy, attempt: nat, e: Error, draw: real)
    requires attempt >= 1
    ensures ShouldRetry(p, attempt, e, draw).Some?
            <==> Accepts(p, e) && (Limit(p).Some? ==> attempt < Limit(p).value)
  {
    if !p.RetryOnError? {
    } else {
      NestReduces(p.inner, attempt, e, draw);
    }
  }

  /** Attempt `k` is the last one: it succeeded, or the policy declines to go on. */
  predicate Stops(policy: Option<Policy>, outcomes: nat -> Result<nat>, draws: nat -> real, k: nat) {
    || outcomes(k).Ok?
    || policy.None?
    || ShouldRetry(policy.value, k, outcomes(k).error, draws(k)).None?
  }

  ghost predicate FirstStop(policy: Option<Policy>, outcomes: nat -> Result<nat>, draws: nat -> real, k: nat) {
    && k >= 1 && Stops(policy, outcomes, draws, k)
    && forall j :: 1 <= j < k ==> !Stops(policy, outcomes, draws, j)
  }

  /** The retry loop. Attempts are numbered from 1; `outcomes(k)` is what the backend would
      answer to attempt `k`, a timeout counting as an error, and `stop` is any attempt that
      ends the loop. */
  method DialWithRetry(policy: Option<Policy>, outcomes: nat -> Result<nat>, draws: nat -> real, ghost stop: nat)
      returns (result: Result<nat>, calls: nat, slept: real)
    requires 1 <= stop <= U32_MAX && Stops(policy, outcomes, draws, stop)
    ensures FirstStop(policy, outcomes, draws, calls)
    ensures calls <= stop && result == outcomes(calls)
    ensures policy.Some? ==> slept == Slept(policy.value, outcomes, draws, calls)
    ensures policy.None? ==> slept == 0.0
  {
    calls, slept := 0, 0.0;
    while true
      invariant calls < stop
      invariant forall j :: 1 <= j <= calls ==> !Stops(policy, outcomes, draws, j)
      invariant policy.Some? ==> slept == Slept(policy.value, outcomes, draws, calls + 1)
      invariant policy.None? ==> slept == 0.0
      decreases stop - calls
    {
      calls := calls + 1;
      result := outcomes(calls);
      if result.Ok? || policy.None? {
        return;
      }
      match ShouldRetry(policy.value, calls, result.error, draws(calls))
      case None => return;
      case Some(delay) => slept := slept + delay;
    }
  }

  /** The delays slept before attempt `k`. */
  function Slept(p: Policy, outcomes: nat -> Result<nat>, draws: nat -> real, k: nat): real {
    if k <= 1 then 0.0
    else
      Slept(p, outcomes, draws, k - 1) +
      match outcomes(k - 1)
      case Ok(_) => 0.0
      case Err(e) =>
        match ShouldRetry(p, k - 1, e, draws(k - 1))
        case None => 0.0
        case Some(delay) => delay
  }

  /** With a bound the loop always ends, at the first success, the first rejected error or
      the bound, whichever comes first. */
  lemma BoundedLoopEnds(p: Policy, outcomes: nat -> Result<nat>, draws: nat -> real, k: nat)
    requires k >= 1 && Limit(p).Some?
    ensures Stops(Some(p), outcomes, draws, k)
            <==> outcomes(k).Ok? || !Accepts(p, outcomes(k).error) || k >= Limit(p).value
  {
    if outcomes(k).Err? { NestReduces(p, k, outcomes(k).error, draws(k)); }
  }

  /** The number of backend calls is the smaller of the bound and `end`, the first attempt
      within the bound that succeeds or fails with a rejected error. An `end` past the bound
      says that there is no such attempt. */
  lemma CallsAreMin(p: Policy, outcomes: nat -> Result<nat>, draws: nat -> real, calls: nat, end: nat)
    requires Limit(p).Some? && FirstStop(Some(p), outcomes, draws, calls) && end >= 1
    requires forall k :: 1 <= k < end && k <= Limit(p).value ==>
               outcomes(k).Err? && (k < Limit(p).value ==> Accepts(p, outcomes(k).error))
    requires end < Limit(p).value ==> outcomes(end).Ok? || !Accepts(p, outcomes(end).error)
    ensures calls == Min(end, Limit(p).value)
    ensures outcomes(calls).Ok? <==> end <= Limit(p).value && outcomes(end).Ok?
  {
    LimitPositive(p);
    BoundedLoopEnds(p, outcomes, draws, calls);
    BoundedLoopEnds(p, outcomes, draws, end);
    BoundedLoopEnds(p, outcomes, draws, Limit(p).value);
  }

  lemma {:induction false} LimitPositive(p: Policy)
    ensures Limit(p).Some? ==> Limit(p).value >= 1
  {
    if !p.RetryOnError? {
    } else {
      LimitPositive(p.inner);
    }
  }

  // ----------------------------------------------------------- exact delays

  /** The policy inside a nest of error filters. */
  function Core(p: Policy): (c: Policy)
    ensures !c.RetryOnError?
  {
    if p.RetryOnError? then Core(p.inner) else p
  }

  /** A nest that retries at all sleeps what its core sleeps: a fixed delay, or the backoff delay,
      of which jitter takes off at most half, in proportion to the draw. */
  lemma {:induction false} NestDelay(p: Policy, attempt: nat, e: Error, draw: real)
    requires ShouldRetry(p, attempt, e, draw).Some?
    ensures var r := ShouldRetry(p, attempt, e, draw).value;
            match Core(p)
            case FixedRetry(delay, _) => r == delay
            case ExponentialBackoff(base, maxDelay, m, _, jitter) =>
              var delay := Delay(base, maxDelay, m, attempt);
              if jitter then 2.0 * r == delay + draw * delay else r == delay
            case _ => false
  {
    if p.RetryOnError? {
      NestDelay(p.inner, attempt, e, draw);
    } else if p.ExponentialBackoff? {
      JitterSplits(Delay(p.baseDelay, p.maxDelay, p.multiplier, attempt), draw);
    }
  }

  lemma JitterSplits(delay: real, draw: real)
    ensures 2.0 * Jittered(delay, draw) == delay + draw * delay
  {}

  /** Backoff delays are geometric up to the cap: each is the multiplier times the one before. */
  lemma DelayRecurrence(base: real, maxDelay: real, m: real, attempt: nat)
    requires base >= 0.0 && maxDelay >= 0.0 && m >= 1.0 && attempt < I32_MAX
    ensures Delay(base, maxDelay, m, 0) == if base < maxDelay then base else maxDelay
    ensures var next := m * Delay(base, maxDelay, m, attempt);
            Delay(base, maxDelay, m, attempt + 1) == if next < maxDelay then next else maxDelay
  {
    hide Pow;
    var x := Pow(m, attempt);
    PowStep(m, attempt);
    SwapFactors(base, m, x);
    assert base * Pow(m, 0) == base;
    CappedProduct(m, base * x, maxDelay);
  }

  lemma PowStep(m: real, k: nat)
    ensures Pow(m, 0) == 1.0 && Pow(m, k + 1) == m * Pow(m, k)
  {}

  lemma CappedProduct(m: real, x: real, cap: real)
    requires m >= 1.0 && cap >= 0.0
    ensures MinReal(m * x, cap) == MinReal(m * MinReal(x, cap), cap)
  {
    if x >= cap {
      ScaleUp(m, x);
      ScaleUp(m, cap);
    }
  }

  lemma SwapFactors(a: real, b: real, c: real)
    ensures a * (b * c) == b * (a * c)
  {}

  /** With a fixed delay, under any nest of filters, the loop sleeps it once per repeated call. */
  lemma {:induction false} FixedSleepExact(p: Policy, outcomes: nat -> Result<nat>, draws: nat -> real, calls: nat)
    requires Core(p).FixedRetry? && calls >= 1
    requires forall j :: 1 <= j < calls ==> !Stops(Some(p), outcomes, draws, j)
    ensures Slept(p, outcomes, draws, calls) == (calls - 1) as real * Core(p).delay
  {
    hide ShouldRetry;
    if calls == 1 {
    } else {
      FixedSleepExact(p, outcomes, draws, calls - 1);
      assert !Stops(Some(p), outcomes, draws, calls - 1);
      NestDelay(p, calls - 1, outcomes(calls - 1).error, draws(calls - 1));
      OneMore((calls - 2) as real, Core(p).delay);
    }
  }

  // ----------------------------------------------------------- backoff bounds

  lemma {:induction false} PowGrows(m: real, a: nat, b: nat)
    requires m >= 1.0 && a <= b
    ensures 1.0 <= Pow(m, a) <= Pow(m, b)
  {
    if b == 0 {
    } else {
      if a == b {
        PowGrows(m, a - 1, b - 1);
        ScaleUp(m, Pow(m, b - 1));
      } else {
        PowGrows(m, a, b - 1);
        ScaleUp(m, Pow(m, b - 1));
      }
    }
  }

  lemma ScaleUp(m: real, x: real)
    requires m >= 1.0 && x >= 0.0
    ensures m * x >= x
  {}

  lemma ScaleMonotone(k: real, x: real, y: real)
    requires k >= 0.0 && x <= y
    ensures k * x <= k * y
  {}

  /** Unjittered delays never decrease, exactly as long as the attempt number fits i32; past
      that they fall back to the base delay. */
  lemma DelayMonotoneIff(base: real, maxDelay: real, m: real, a: nat, b: nat)
    requires base >= 0.0 && m >= 1.0 && a <= b
    ensures Delay(base, maxDelay, m, a) <= Delay(base, maxDelay, m, b)
            <==> b <= I32_MAX || a > I32_MAX || a == 0 || base == 0.0 || m == 1.0 || base >= maxDelay
  {
    var x, y := Pow(m, Exponent(a)), Pow(m, Exponent(b));
    if b <= I32_MAX || a > I32_MAX || a == 0 {
      PowGrows(m, Exponent(a), Exponent(b));
      ScaleMonotone(base, x, y);
    } else {
      assert y == Pow(m, 0) == 1.0 && base * y == base;
      if m == 1.0 {
        PowOne(a);
        assert base * x == base;
      } else {
        PowGrows(m, 1, a);
        assert Pow(m, 1) == m * Pow(m, 0) == m;
        StrictScale(base, x, m);
      }
    }
  }

  lemma {:induction false} PowOne(k: nat)
    ensures Pow(1.0, k) == 1.0
  {
    if k == 0 {
    } else {
      PowOne(k - 1);
    }
  }

  lemma StrictScale(base: real, p: real, m: real)
    requires base >= 0.0 && m > 1.0 && p >= m
    ensures base > 0.0 ==> base * p > base
    ensures base == 0.0 ==> base * p == 0.0
  {
    if base > 0.0 {
      assert base * p >= base * m;
      assert base * m > base * 1.0;
    }
  }

  /** What `should_retry` may return for exponential backoff. */
  lemma BackoffDelayBounds(p: Policy, attempt: nat, e: Error, draw: real)
    requires p.ExponentialBackoff? && p.baseDelay >= 0.0 && p.maxDelay >= 0.0 && p.multiplier >= 1.0
    requires 0.0 <= draw < 1.0
    ensures var delay := Delay(p.baseDelay, p.maxDelay, p.multiplier, attempt);
            var r := ShouldRetry(p, attempt, e, draw);
            && 0.0 <= delay <= p.maxDelay
            && (r.Some? ==> delay / 2.0 <= r.value <= delay)
            && (r.Some? && !p.jitter ==> r.value == delay)
  {
    PowGrows(p.multiplier, 0, Exponent(attempt));
    var delay := Delay(p.baseDelay, p.maxDelay, p.multiplier, attempt);
    ScaleMonotone(p.baseDelay, 0.0, Pow(p.multiplier, Exponent(attempt)));
    JitterBounds(delay, draw);
  }

  lemma JitterBounds(delay: real, draw: real)
    requires delay >= 0.0 && 0.0 <= draw < 1.0
    ensures delay / 2.0 <= Jittered(delay, draw) <= delay
  {
    var f := draw * JITTER_FACTOR + JITTER_FACTOR;
    ScaleMonotone(delay, 0.5, f);
    ScaleMonotone(delay, f, 1.0);
  }

  /** With a multiplier of at least 2, jitter never reorders delays below the cap. */
  lemma JitterKeepsOrder(base: real, maxDelay: real, m: real, attempt: nat, draw: real, draw': real)
    requires base >= 0.0 && m >= 2.0 && attempt + 1 <= I32_MAX
    requires base * Pow(m, attempt + 1) <= maxDelay
    requires 0.0 <= draw < 1.0 && 0.0 <= draw' < 1.0
    ensures Jittered(Delay(base, maxDelay, m, attempt), draw)
         <= Jittered(Delay(base, maxDelay, m, attempt + 1), draw')
  {
    hide Jittered;
    var lo, hi := base * Pow(m, attempt), base * Pow(m, attempt + 1);
    assert 0.0 <= 2.0 * lo <= hi by {
      PowGrows(m, 0, attempt);
      ScaleMonotone(base, 0.0, Pow(m, attempt));
      assert Pow(m, attempt + 1) == m * Pow(m, attempt);
      DoubleAtLeast(base, Pow(m, attempt), m);
    }
    assert Delay(base, maxDelay, m, attempt) == lo;
    assert Delay(base, maxDelay, m, attempt + 1) == hi;
    JitterBounds(lo, draw);
    JitterBounds(hi, draw');
  }

  lemma DoubleAtLeast(base: real, x: real, m: real)
    requires base >= 0.0 && x >= 0.0 && m >= 2.0
    ensures base * (m * x) >= 2.0 * (base * x)
  {
    ScaleMonotone(x, 2.0, m);
    ScaleMonotone(base, 2.0 * x, m * x);
  }

  /** Exponential backoff, possibly under any nest of error filters. */
  predicate BackoffWithin(p: Policy, maxDelay: real) {
    match p
    case ExponentialBackoff(base, cap, m, _, _) => base >= 0.0 && 0.0 <= cap <= maxDelay && m >= 1.0
    case RetryOnError(inner, _) => BackoffWithin(inner, maxDelay)
    case _ => false
  }

  /** All sleeping before the `calls`-th attempt fits in `calls - 1` maximal delays. */
  lemma {:induction false} TotalSleepBounded(p: Policy, outcomes: nat -> Result<nat>, draws: nat -> real, calls: nat, maxDelay: real)
    requires calls >= 1 && maxDelay >= 0.0 && BackoffWithin(p, maxDelay)
    requires forall k :: 0.0 <= draws(k) < 1.0
    ensures 0.0 <= Slept(p, outcomes, draws, calls) <= (calls - 1) as real * maxDelay
  {
    hide ShouldRetry, BackoffWithin;
    if calls == 1 {
    } else {
      TotalSleepBounded(p, outcomes, draws, calls - 1, maxDelay);
      if outcomes(calls - 1).Err? {
        NestedDelayBounded(p, calls - 1, outcomes(calls - 1).error, draws(calls - 1), maxDelay);
      }
      OneMore((calls - 2) as real, maxDelay);
    }
  }

  lemma OneMore(k: real, d: real)
    ensures (k + 1.0) * d == k * d + d
  {}

  lemma {:induction false} NestedDelayBounded(p: Policy, attempt: nat, e: Error, draw: real, maxDelay: real)
    requires 0.0 <= draw < 1.0 && BackoffWithin(p, maxDelay)
    ensures var r := ShouldRetry(p, attempt, e, draw); r.Some? ==> 0.0 <= r.value <= maxDelay
  {
    if p.RetryOnError? {
      NestedDelayBounded(p.inner, attempt, e, draw, maxDelay);
    } else {
      BackoffDelayBounds(p, attempt, e, draw);
    }
  }
}
