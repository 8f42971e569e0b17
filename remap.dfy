/** The Arduino-style `map`: a linear remap of one range onto another,
    followed by a clamp into the target range. */
module RangeMap {
  import opened Results
  import opened RealArith

  /** Scales `x` from `[inMin, inMax]` to `[outMin, outMax]` and saturates the
      result at the target bounds.  A degenerate source range divides by zero. */
  function Remap(x: real, inMin: real, inMax: real, outMin: real, outMax: real): (r: Result<real>)
    ensures r.Err? <==> inMin == inMax
    ensures r.Err? ==> r.error == DivideByZero
    ensures r.Ok? && outMin <= outMax ==> outMin <= r.value <= outMax
  {
    var scaled :- Div((x - inMin) * (outMax - outMin), inMax - inMin);
    var out := scaled + outMin;
    if out < outMin then Ok(outMin)
    else if out > outMax then Ok(outMax)
    else Ok(out)
  }

  /** The straight line through `(inMin, outMin)` and `(inMax, outMax)`. */
  ghost function Line(x: real, inMin: real, inMax: real, outMin: real, outMax: real): real
    requires inMin != inMax
  {
    (x - inMin) * (outMax - outMin) / (inMax - inMin) + outMin
  }

  /** A well-formed remap is the line clamped into the target range. */
  lemma RemapIsClampedLine(x: real, inMin: real, inMax: real, outMin: real, outMax: real)
    requires inMin != inMax
    ensures Remap(x, inMin, inMax, outMin, outMax).Ok?
    ensures var v := Line(x, inMin, inMax, outMin, outMax);
      Remap(x, inMin, inMax, outMin, outMax).value
        == if v < outMin then outMin else if v > outMax then outMax else v
  {
    var q := (x - inMin) * (outMax - outMin) / (inMax - inMin);
    assert Div((x - inMin) * (outMax - outMin), inMax - inMin) == Ok(q);
  }

  /** Where the line is, relative to the target range, for an input `x`
      relative to the source range. */
  lemma LineBounds(x: real, inMin: real, inMax: real, outMin: real, outMax: real)
    requires inMin < inMax && outMin <= outMax
    ensures x == inMin ==> Line(x, inMin, inMax, outMin, outMax) == outMin
    ensures x == inMax ==> Line(x, inMin, inMax, outMin, outMax) == outMax
    ensures x <= inMin ==> Line(x, inMin, inMax, outMin, outMax) <= outMin
    ensures inMin <= x ==> outMin <= Line(x, inMin, inMax, outMin, outMax)
    ensures x <= inMax ==> Line(x, inMin, inMax, outMin, outMax) <= outMax
    ensures inMax <= x ==> outMax <= Line(x, inMin, inMax, outMin, outMax)
  {
    LineEnds(inMin, inMax, outMin, outMax);
    if x <= inMin { LineMonotone(x, inMin, inMin, inMax, outMin, outMax); }
    if inMin <= x { LineMonotone(inMin, x, inMin, inMax, outMin, outMax); }
    if x <= inMax { LineMonotone(x, inMax, inMin, inMax, outMin, outMax); }
    if inMax <= x { LineMonotone(inMax, x, inMin, inMax, outMin, outMax); }
  }

  lemma LineEnds(inMin: real, inMax: real, outMin: real, outMax: real)
    requires inMin != inMax
    ensures Line(inMin, inMin, inMax, outMin, outMax) == outMin
    ensures Line(inMax, inMin, inMax, outMin, outMax) == outMax
  {
    var w, d := inMax - inMin, outMax - outMin;
    CancelLeft(w, d);
    assert (inMin - inMin) * d == 0.0;
  }

  /** Both ends of a non-degenerate source range land on the matching ends of
      an ordered target range, whichever way round the source range is. */
  lemma RemapEndpoints(inMin: real, inMax: real, outMin: real, outMax: real)
    requires inMin != inMax && outMin <= outMax
    ensures Remap(inMin, inMin, inMax, outMin, outMax) == Ok(outMin)
    ensures Remap(inMax, inMin, inMax, outMin, outMax) == Ok(outMax)
  {
    RemapIsClampedLine(inMin, inMin, inMax, outMin, outMax);
    RemapIsClampedLine(inMax, inMin, inMax, outMin, outMax);
    LineEnds(inMin, inMax, outMin, outMax);
  }

  /** As written, the clamp assumes `outMin <= outMax`: with a reversed target
      range it sends the bottom of the source range to `outMax` rather than
      to `outMin`. */
  lemma RemapReversedTarget()
    ensures Remap(0.0, 0.0, 10.0, 10.0, 0.0) == Ok(0.0)
    ensures Line(0.0, 0.0, 10.0, 10.0, 0.0) == 10.0
  {
    RemapIsClampedLine(0.0, 0.0, 10.0, 10.0, 0.0);
    LineEnds(0.0, 10.0, 10.0, 0.0);
  }

  /** The lower and the upper of two bounds. */
  function Low(a: real, b: real): real { if a <= b then a else b }
  function High(a: real, b: real): real { if a <= b then b else a }

  /** The remap with the clamp taken between the two target bounds, whichever
      is larger: the line from `(inMin, outMin)` to `(inMax, outMax)` never
      leaves the interval the two bounds span. */
  function RemapBetween(x: real, inMin: real, inMax: real, outMin: real, outMax: real): (r: Result<real>)
    ensures r.Err? <==> inMin == inMax
    ensures r.Err? ==> r.error == DivideByZero
    ensures r.Ok? ==> Low(outMin, outMax) <= r.value <= High(outMin, outMax)
  {
    var scaled :- Div((x - inMin) * (outMax - outMin), inMax - inMin);
    var out := scaled + outMin;
    var lo, hi := Low(outMin, outMax), High(outMin, outMax);
    if out < lo then Ok(lo)
    else if out > hi then Ok(hi)
    else Ok(out)
  }

  /** With the clamp between the bounds, both ends of the source range land
      on the matching ends of the target range, for every orientation. */
  lemma RemapBetweenEndpoints(inMin: real, inMax: real, outMin: real, outMax: real)
    requires inMin != inMax
    ensures RemapBetween(inMin, inMin, inMax, outMin, outMax) == Ok(outMin)
    ensures RemapBetween(inMax, inMin, inMax, outMin, outMax) == Ok(outMax)
  {
    LineEnds(inMin, inMax, outMin, outMax);
    var w := inMax - inMin;
    var q0, q1 := (inMin - inMin) * (outMax - outMin) / w, (inMax - inMin) * (outMax - outMin) / w;
    assert Div((inMin - inMin) * (outMax - outMin), w) == Ok(q0);
    assert Div((inMax - inMin) * (outMax - outMin), w) == Ok(q1);
  }

  /** On an ordered target range the two clamps coincide. */
  lemma RemapBetweenAgrees(x: real, inMin: real, inMax: real, outMin: real, outMax: real)
    requires outMin <= outMax
    ensures RemapBetween(x, inMin, inMax, outMin, outMax) == Remap(x, inMin, inMax, outMin, outMax)
  {}

  /** Inputs outside the source range saturate instead of failing. */
  lemma RemapSaturates(x: real, inMin: real, inMax: real, outMin: real, outMax: real)
    requires inMin < inMax && outMin <= outMax
    ensures x <= inMin ==> Remap(x, inMin, inMax, outMin, outMax) == Ok(outMin)
    ensures inMax <= x ==> Remap(x, inMin, inMax, outMin, outMax) == Ok(outMax)
  {
    RemapIsClampedLine(x, inMin, inMax, outMin, outMax);
    LineBounds(x, inMin, inMax, outMin, outMax);
  }

  /** Inside the source range nothing is clamped: the result is on the line. */
  lemma RemapInterior(x: real, inMin: real, inMax: real, outMin: real, outMax: real)
    requires inMin < inMax && outMin <= outMax && inMin <= x <= inMax
    ensures Remap(x, inMin, inMax, outMin, outMax) == Ok(Line(x, inMin, inMax, outMin, outMax))
  {
    RemapIsClampedLine(x, inMin, inMax, outMin, outMax);
    LineBounds(x, inMin, inMax, outMin, outMax);
  }

  /** With increasing ranges the remap never decreases. */
  lemma RemapMonotone(x1: real, x2: real, inMin: real, inMax: real, outMin: real, outMax: real)
    requires inMin < inMax && outMin <= outMax && x1 <= x2
    ensures Remap(x1, inMin, inMax, outMin, outMax).Ok?
    ensures Remap(x2, inMin, inMax, outMin, outMax).Ok?
    ensures Remap(x1, inMin, inMax, outMin, outMax).value <= Remap(x2, inMin, inMax, outMin, outMax).value
  {
    RemapIsClampedLine(x1, inMin, inMax, outMin, outMax);
    RemapIsClampedLine(x2, inMin, inMax, outMin, outMax);
    LineMonotone(x1, x2, inMin, inMax, outMin, outMax);
  }

  lemma LineMonotone(x1: real, x2: real, inMin: real, inMax: real, outMin: real, outMax: real)
    requires inMin < inMax && outMin <= outMax && x1 <= x2
    ensures Line(x1, inMin, inMax, outMin, outMax) <= Line(x2, inMin, inMax, outMin, outMax)
  {
    var w, d := inMax - inMin, outMax - outMin;
    var a1, a2 := x1 - inMin, x2 - inMin;
    MulMono(a1, a2, d);
    DivMono(a1 * d, a2 * d, w);
  }
}
