/** Nonlinear facts about integers, kept apart so that other proofs stay linear. */
module Arithmetic {

  lemma MulCancel(a: int, b: int, k: int)
    requires k > 0 && a * k < b * k
    ensures a < b
  {}

  lemma MulMonotone(a: int, b: int, k: int)
    requires k > 0
    ensures a < b ==> a * k < b * k
    ensures a <= b ==> a * k <= b * k
  {}

  lemma Reorder(a: int, b: int, c: int)
    ensures (a * b) * c == (a * c) * b
  {}

  lemma Distribute(a: int, b: int, c: int)
    ensures a * (b + c) == a * b + a * c
    ensures (b + c) * a == b * a + c * a
  {}

  lemma QuotientBounds(n: int, d: int)
    requires d > 0
    ensures n / d * d <= n < (n / d + 1) * d
  {}

  /** The quotient is the only multiplier that brackets `n`. */
  lemma QuotientUnique(n: int, d: int, q: int)
    requires d > 0 && q * d <= n < (q + 1) * d
    ensures n / d == q
  {
    QuotientBounds(n, d);
    MulCancel(q, n / d + 1, d);
    MulCancel(n / d, q + 1, d);
  }

  /** The index `d` places after `p`, going round `n` places. */
  function Ahead(p: nat, d: nat, n: nat): (x: nat)
    requires p < n && d < n
    ensures x < n && x == (p + d) % n
  {
    ModBelow(p + d, n);
    if p + d < n then p + d else p + d - n
  }

  lemma ModBelow(a: nat, n: nat)
    requires a < 2 * n
    ensures a % n == if a < n then a else a - n
  {}
}
