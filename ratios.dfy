/** Facts of exact real division and multiplication, each kept in a lemma of its own
    so that a proof calls only the step it needs. */
module Ratios {

  lemma DivideZero(d: real)
    requires d != 0.0
    ensures 0.0 / d == 0.0
  {
  }

  lemma DivideSelf(d: real)
    requires d != 0.0
    ensures d / d == 1.0
  {
  }

  lemma DivideAdd(a: real, b: real, d: real)
    requires d != 0.0
    ensures a / d + b / d == (a + b) / d
  {
  }

  lemma DivideWithin(a: real, d: real)
    requires 0.0 <= a <= d && d > 0.0
    ensures 0.0 <= a / d <= 1.0
  {
  }

  lemma DivideMonotone(a: real, b: real, d: real)
    requires a <= b && d > 0.0
    ensures a / d <= b / d
  {
  }

  lemma DivideStrict(a: real, b: real, d: real)
    requires a < b && d > 0.0
    ensures a / d < b / d
  {
  }

  lemma PositiveQuotient(c: real, d: real)
    requires d > 0.0 && c > 0.0
    ensures c / d > 0.0
  {
  }

  lemma ProductPositive(a: real, b: real)
    requires a > 0.0 && b > 0.0
    ensures a * b > 0.0
  {
  }

  lemma ProductDifference(a: real, b: real, c: real)
    ensures a * c - b * c == (a - b) * c
  {
  }
}
