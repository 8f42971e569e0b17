/** `math.pow` on floats.  Real exponentiation with a fractional exponent has
    no closed form over Dafny's exact reals, so its positive-base part is a
    parameter `pow`, and the laws every real exponentiation obeys on positive
    bases are stated once, as the predicate `Laws`.  The zero- and
    negative-base cases follow the library's domain rules explicitly. */
module PowerLaw {
  import opened Results

  /** `pow(b, e)` stands for `b` raised to `e`; it is only consulted for `b > 0`. */
  type PowFn = (real, real) -> real

  /** The laws of exponentiation on positive bases used by the proofs. */
  ghost predicate Laws(pow: PowFn) {
    && (forall b, e :: 0.0 < b ==> 0.0 < pow(b, e))
    && (forall b :: 0.0 < b ==> pow(b, 1.0) == b)
    && (forall b :: 0.0 < b ==> pow(b, -1.0) * b == 1.0)
    && (forall b, e1, e2 :: 0.0 < b ==> pow(pow(b, e1), e2) == pow(b, e1 * e2))
    && (forall b1, b2, e :: 0.0 < b1 < b2 && 0.0 < e ==> pow(b1, e) < pow(b2, e))
  }

  /** Whether a float has no fractional part. */
  predicate IsIntegral(e: real) {
    e == e.Floor as real
  }

  /** `math.pow(b, e)`: agrees with `pow` on positive bases, treats a zero
      base by the sign of the exponent, allows a negative base only with an
      integral exponent (the sign then follows the exponent's parity), and
      raises a domain error everywhere else. */
  function MathPow(pow: PowFn, b: real, e: real): (r: Result<real>)
    ensures r.Err? <==> (b == 0.0 && e < 0.0) || (b < 0.0 && !IsIntegral(e))
    ensures r.Err? ==> r.error == DomainError
    ensures 0.0 < b ==> r == Ok(pow(b, e))
    ensures b == 0.0 && 0.0 < e ==> r == Ok(0.0)
    ensures Laws(pow) && 0.0 < b ==> 0.0 < r.value
  {
    if 0.0 < b then Ok(pow(b, e))
    else if b == 0.0 then
      if 0.0 < e then Ok(0.0)
      else if e == 0.0 then Ok(1.0)
      else Err(DomainError)
    else if IsIntegral(e) then
      Ok(if e.Floor % 2 == 0 then pow(-b, e) else -pow(-b, e))
    else Err(DomainError)
  }

  lemma Compose(pow: PowFn, b: real, e1: real, e2: real)
    requires Laws(pow) && 0.0 < b
    ensures pow(pow(b, e1), e2) == pow(b, e1 * e2)
  {}

  /** A negative exponent gives the reciprocal of the positive one. */
  lemma Reciprocal(pow: PowFn, b: real, e: real)
    requires Laws(pow) && 0.0 < b
    ensures pow(b, -e) * pow(b, e) == 1.0
  {
    var p := pow(b, e);
    assert 0.0 < p;
    assert pow(p, -1.0) * p == 1.0;
    assert pow(p, -1.0) == pow(b, e * -1.0);
    assert e * -1.0 == -e;
  }

  /** Raising to a negative exponent reverses the order of positive bases. */
  lemma Antitone(pow: PowFn, b1: real, b2: real, e: real)
    requires Laws(pow) && 0.0 < b1 < b2 && e < 0.0
    ensures pow(b2, e) < pow(b1, e)
  {
    var p1, p2 := pow(b1, -e), pow(b2, -e);
    assert 0.0 < p1 < p2;
    Reciprocal(pow, b1, -e);
    Reciprocal(pow, b2, -e);
    assert --e == e;
    var q1, q2 := pow(b1, e), pow(b2, e);
    assert q1 * p1 == 1.0 && q2 * p2 == 1.0;
    assert 0.0 < q2;
    assert q2 * p1 < q2 * p2;
  }

  /** The `e`-th root raised back to the power `e` is the identity. */
  lemma RootThenPower(pow: PowFn, k: real, e: real)
    requires Laws(pow) && 0.0 < k && e != 0.0
    ensures pow(pow(k, 1.0 / e), e) == k
  {
    var root := 1.0 / e;
    Compose(pow, k, root, e);
    var product := root * e;
    assert product == 1.0;
    assert pow(k, product) == pow(k, 1.0) == k;
  }

  /** Raising the reciprocal `1 / m` to `-e` is raising `m` to `e`. */
  lemma ReciprocalBase(pow: PowFn, m: real, e: real)
    requires Laws(pow) && 0.0 < m
    ensures 0.0 < 1.0 / m && pow(1.0 / m, -e) == pow(m, e)
  {
    var inv := pow(m, -1.0);
    assert inv * m == 1.0;
    assert inv == 1.0 / m;
    assert pow(inv, -e) == pow(m, -1.0 * -e);
    assert -1.0 * -e == e;
  }

  /** Taking the `e`-th root and raising its reciprocal to `-e` gives back the base. */
  lemma RootRoundTrip(pow: PowFn, k: real, e: real)
    requires Laws(pow) && 0.0 < k && e != 0.0
    ensures 0.0 < pow(k, 1.0 / e)
    ensures pow(1.0 / pow(k, 1.0 / e), -e) == k
  {
    var root := pow(k, 1.0 / e);
    ReciprocalBase(pow, root, e);
    RootThenPower(pow, k, e);
  }

  /** Raising to `-e` and then taking the `e`-th root gives the reciprocal. */
  lemma PowerThenRoot(pow: PowFn, x: real, e: real)
    requires Laws(pow) && 0.0 < x && e != 0.0
    ensures pow(pow(x, -e), 1.0 / e) * x == 1.0
  {
    var exponent, root := -e, 1.0 / e;
    Compose(pow, x, exponent, root);
    var product := exponent * root;
    assert product == -1.0;
    assert pow(x, product) == pow(x, -1.0);
  }
}
