/** Multiplication and division facts. */
module Arithmetic {

  lemma Ordered(a: int, b: int, d: int)
    requires d >= 0 && a * d < b * d
    ensures a < b
  {
  }

  lemma OneMoreGap(n: nat, d: nat)
    ensures (n - 1) * d + d == n * d
  {
  }

  lemma DivisionBounds(x: nat, d: nat)
    requires d > 0
    ensures x / d * d <= x < (x / d + 1) * d
  {
    assert x == x / d * d + x % d;
    assert (x / d + 1) * d == x / d * d + d;
  }

  lemma QuotientBound(n: nat, d: nat, t: nat)
    requires d > 0 && n * d <= t
    ensures n <= t / d
  {
    DivisionBounds(t, d);
    Ordered(n, t / d + 1, d);
  }

  lemma DivMonotone(a: nat, b: nat, d: nat)
    requires d > 0 && a <= b
    ensures a / d <= b / d
  {
    DivisionBounds(a, d);
    DivisionBounds(b, d);
    Ordered(a / d, b / d + 1, d);
  }
}
