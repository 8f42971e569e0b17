/** Small facts about real multiplication and division, each proved in
    isolation so that the proofs using them stay linear. */
module RealArith {

  lemma MulMono(a: real, b: real, d: real)
    requires a <= b && 0.0 <= d
    ensures a * d <= b * d
  {
    assert b * d - a * d == (b - a) * d;
  }

  lemma MulStrict(a: real, b: real, d: real)
    requires a < b && 0.0 < d
    ensures a * d < b * d
  {
    assert b * d - a * d == (b - a) * d;
  }

  /** The product of two positive numbers is positive. */
  lemma MulPositive(a: real, b: real)
    ensures 0.0 < a && 0.0 < b ==> 0.0 < a * b
  {
    if 0.0 < a && 0.0 < b {
      MulStrict(0.0, a, b);
    }
  }

  lemma DivMono(a: real, b: real, w: real)
    requires a <= b && 0.0 < w
    ensures a / w <= b / w
  {
    assert b / w - a / w == (b - a) / w;
  }

  lemma DivStrict(a: real, b: real, w: real)
    requires a < b && 0.0 < w
    ensures a / w < b / w
  {
    assert b / w - a / w == (b - a) / w;
  }

  /** A positive numerator over a larger positive divisor gives less. */
  lemma DivAntitone(c: real, m1: real, m2: real)
    requires 0.0 < c && 0.0 < m1 < m2
    ensures 0.0 < c / m2 < c / m1
  {
    var q1, q2 := c / m1, c / m2;
    assert q1 * m1 == c && q2 * m2 == c;
    MulStrict(m1, m2, q2);
    if q1 <= q2 {
      MulMono(q1, q2, m1);
      assert false;
    }
  }

  /** A positive number over a smaller positive divisor exceeds one. */
  lemma QuotientAboveOne(c: real, m: real)
    ensures 0.0 < m < c ==> 1.0 < c / m
  {
    if 0.0 < m < c {
      DivStrict(m, c, m);
    }
  }

  /** Dividing a product by one of its factors. */
  lemma CancelLeft(w: real, d: real)
    requires w != 0.0
    ensures (w * d) / w == d
  {}

  /** `r / (r * s)` is `1 / s` for positive factors. */
  lemma CancelFactor(r: real, s: real)
    requires 0.0 < r && 0.0 < s
    ensures 0.0 < r * s && r / (r * s) == 1.0 / s
  {
    MulPositive(r, s);
  }

  /** Multiplying a quotient back by its divisor. */
  lemma QuotientTimes(a: real, b: real)
    requires b != 0.0
    ensures b * (a / b) == a
  {}

  /** Scaling `r` by the reciprocal of `r / z` gives back `z`. */
  lemma UndoRatio(r: real, z: real, inv: real)
    requires 0.0 < r && 0.0 < z && inv * (r / z) == 1.0
    ensures r * inv == z
  {
    assert inv == z / r;
  }

  /** Dividing by `f` commutes with a product and nests with a quotient. */
  lemma DivideThrough(r: real, m: real, z: real, f: real)
    requires f != 0.0 && z != 0.0
    ensures (r / f) * m == (r * m) / f
    ensures z * f != 0.0
    ensures (r / f) / z == r / (z * f)
  {}
}
