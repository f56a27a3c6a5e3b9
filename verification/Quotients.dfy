/** Bounds on Euclidean quotients by a variable divisor. */
module Quotients {

  lemma ProductAtLeast(x: int, d: int)
    requires d > 0
    ensures x >= 1 ==> x * d >= d
    ensures x <= -1 ==> x * d <= -d
  {
  }

  lemma QuotientBounds(n: int, d: int)
    requires d > 0
    ensures (n / d) * d <= n < (n / d) * d + d
  {
    var q, r := n / d, n % d;
    assert n == q * d + r;
  }

  lemma QuotientAtLeast(n: int, d: int, q: int)
    requires d > 0 && q * d <= n
    ensures q <= n / d
  {
    var q' := n / d;
    QuotientBounds(n, d);
    ProductAtLeast(q - q', d);
    assert (q - q') * d == q * d - q' * d;
  }

  lemma QuotientAtMost(n: int, d: int, q: int)
    requires d > 0 && n < q * d + d
    ensures n / d <= q
  {
    var q' := n / d;
    QuotientBounds(n, d);
    ProductAtLeast(q' - q, d);
    assert (q' - q) * d == q' * d - q * d;
  }

  lemma QuotientOfProduct(q: int, d: int)
    requires d > 0
    ensures (q * d) / d == q
  {
    QuotientAtLeast(q * d, d, q);
    QuotientAtMost(q * d, d, q);
  }

  lemma QuotientShift(n: int, d: int, q: int)
    requires d > 0
    ensures (n + q * d) / d == n / d + q
  {
    QuotientBounds(n, d);
    assert (n / d + q) * d == (n / d) * d + q * d;
    QuotientAtLeast(n + q * d, d, n / d + q);
    QuotientAtMost(n + q * d, d, n / d + q);
  }

  /** Quotients of a sum: what rounding down the parts loses is at most one. */
  lemma QuotientSum(a: int, b: int, d: int)
    requires d > 0
    ensures a / d + b / d <= (a + b) / d <= a / d + b / d + 1
  {
    QuotientBounds(a, d);
    QuotientBounds(b, d);
    var q := a / d + b / d;
    assert q * d == (a / d) * d + (b / d) * d;
    assert (q + 1) * d == q * d + d;
    QuotientAtLeast(a + b, d, q);
    QuotientAtMost(a + b, d, q + 1);
  }

  lemma QuotientMonotone(a: int, b: int, d: int)
    requires d > 0 && a <= b
    ensures a / d <= b / d
  {
    QuotientBounds(a, d);
    QuotientAtLeast(b, d, a / d);
  }

  lemma QuotientIs(n: int, d: int, q: int, r: int)
    requires d > 0 && n == q * d + r && 0 <= r < d
    ensures n / d == q && n % d == r
  {
    QuotientAtLeast(n, d, q);
    QuotientAtMost(n, d, q);
  }

  lemma CancelFactor(a: int, b: int, k: int)
    requires k > 0 && a * k == b * k
    ensures a == b
  {
    ProductAtLeast(a - b, k);
    assert (a - b) * k == a * k - b * k;
  }

  lemma ProductAtMost(a: nat, b: nat, c: nat, d: nat)
    requires a <= c && b <= d
    ensures a * b <= c * d
  {
    assert a * b <= a * d;
    assert a * d <= c * d;
  }
}
