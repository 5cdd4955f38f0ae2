/** Facts about products and floor division that the solver does not find by itself. */
module Arithmetic {

  lemma MulMonotone(a: int, b: int, d: int)
    requires a <= b && 0 <= d
    ensures a * d <= b * d
  {
  }

  lemma CancelLess(a: int, b: int, d: int)
    requires 0 < d && a * d < b * d
    ensures a < b
  {
    if b <= a {
      MulMonotone(b, a, d);
    }
  }

  lemma DivisionBounds(a: int, d: int)
    requires 0 < d
    ensures a / d * d <= a < (a / d + 1) * d
  {
    assert (a / d + 1) * d == a / d * d + d;
  }

  lemma DivisionIsUnique(a: int, q: int, d: int)
    requires 0 < d
    requires q * d <= a < q * d + d
    ensures a / d == q
  {
    DivisionBounds(a, d);
    assert (q + 1) * d == q * d + d;
    CancelLess(a / d, q + 1, d);
    CancelLess(q, a / d + 1, d);
  }

  lemma DivisionMonotone(a: int, b: int, d: int)
    requires 0 < d && a <= b
    ensures a / d <= b / d
  {
    DivisionBounds(a, d);
    DivisionBounds(b, d);
    CancelLess(a / d, b / d + 1, d);
  }
}
