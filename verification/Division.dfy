/** Products and quotients of integers, by witnesses. */
module Division {
  lemma {:induction false} AtLeast(b: int, k: int, m: int)
    requires b >= 0 && k >= m
    ensures b * k >= b * m
  {
  }

  /** A quotient is determined by a remainder below the divisor. */
  lemma {:induction false} QuotientIs(e: int, b: int, q: int, r: int)
    requires e == b * q + r && 0 <= r < b
    ensures e / b == q && e % b == r
  {
    var k := e / b - q;
    assert e == b * (e / b) + e % b;
    assert b * k == r - e % b;
    if k >= 1 {
      AtLeast(b, k, 1);
    } else if k <= -1 {
      AtLeast(b, -k, 1);
    }
  }
}
