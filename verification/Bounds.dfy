/** Numbers as the quantile functions see them: exact reals, the two infinities and NaN. */
module Bounds {

  /** A bound that may be infinite. */
  datatype Bound = MinusInf | Fin(x: real) | PlusInf

  predicate AtMost(a: Bound, b: Bound) {
    a.MinusInf? || b.PlusInf? || (a.Fin? && b.Fin? && a.x <= b.x)
  }

  datatype Result = NaN | Value(v: Bound)

  lemma {:induction false} QuotientInUnit(a: real, d: real)
    requires 0.0 <= a <= d && 0.0 < d
    ensures 0.0 <= a / d <= 1.0
  {
  }

  lemma {:induction false} QuotientMonotone(a: real, b: real, d: real)
    requires a <= b && 0.0 < d
    ensures a / d <= b / d
  {
    assert b / d - a / d == (b - a) / d;
  }

  lemma {:induction false} Scale(c: real, a: real, b: real)
    requires 0.0 <= c && a <= b
    ensures c * a <= c * b
  {
  }
}
