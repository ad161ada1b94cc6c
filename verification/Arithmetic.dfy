/** Nonlinear facts used across the modules. */
module Arithmetic {

  lemma MulSign(e: int, d: int)
    requires d > 0
    ensures e >= 1 ==> e * d >= d
    ensures e <= -1 ==> e * d <= -d
  {
  }

  /** Quotient and remainder are determined by v == q * d + r. */
  lemma DivUnique(v: int, d: int, q: int, r: int)
    requires 0 <= r < d && v == q * d + r
    ensures v / d == q && v % d == r
  {
    var e := v / d - q;
    assert e * d == r - v % d by { assert v == (v / d) * d + v % d; }
    MulSign(e, d);
  }
}
