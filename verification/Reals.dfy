// Quotients and products of reals.
module Reals {

  lemma QuotientTimes(a: real, d: real)
    requires d != 0.0
    ensures a / d * d == a
  {
  }

  lemma SameFactor(a: real, b: real, d: real)
    requires d > 0.0 && a * d == b * d
    ensures a == b
  {
    assert (a - b) * d == 0.0;
  }

  lemma PositiveFactor(a: real, d: real)
    requires d > 0.0
    ensures a * d > 0.0 <==> a > 0.0
  {
  }
}
