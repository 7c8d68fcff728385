/** Products and floor divisions, kept out of the proofs that need them. */
module Arithmetic {
  lemma DivBounds(x: nat, d: nat)
    requires d > 0
    ensures x / d >= 0 && (x / d) * d <= x < (x / d) * d + d
  {
  }

  lemma MulLess(a: int, b: int, d: int)
    requires d > 0 && a * d < b * d
    ensures a < b
  {
  }

  lemma MulMonotone(a: nat, b: nat, d: nat)
    requires a <= b
    ensures a * d <= b * d
  {
  }

  /** A whole number below a fraction is at most its floor. */
  lemma FloorIsLargest(q: int, x: nat, d: nat)
    requires d > 0 && q * d <= x
    ensures q <= x / d
  {
    DivBounds(x, d);
    MulLess(q, x / d + 1, d);
  }
}
