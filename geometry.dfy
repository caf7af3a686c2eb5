/** Geometry and velocity (script.js:134-141 and 250-260): diameters in
    inches become circle areas in cm², the annulus is what the casing leaves
    around the pipe, and a flow rate in L/min over an area gives a velocity
    in m/s. π is an abstract positive constant, passed as `pi`. */
module Geometry {
  import opened Wrappers

  type PositiveReal = x: real | x > 0.0 witness 1.0

  const CM_PER_INCH: real := 2.54

  function InchesToCm(inches: real): (cm: real)
    ensures cm == inches * CM_PER_INCH
    ensures cm > 0.0 <==> inches > 0.0
  {
    inches * CM_PER_INCH
  }

  /** Math.pow(x, n) for a whole exponent. */
  function Pow(x: real, n: nat): real {
    if n == 0 then 1.0 else x * Pow(x, n - 1)
  }

  function Abs(x: real): (r: real)
    ensures r >= 0.0 && (r == x || r == -x)
  {
    if x < 0.0 then -x else x
  }

  /** A square is never negative and is zero only at zero. */
  lemma SquareSign(x: real)
    ensures Pow(x, 2) >= 0.0
    ensures Pow(x, 2) > 0.0 <==> x != 0.0
  {
    assert Pow(x, 1) == x;
    if x > 0.0 {
      MulPositive(x, Pow(x, 1));
    } else if x < 0.0 {
      MulNegative(x, Pow(x, 1));
    }
  }

  lemma MulPositive(a: real, b: real)
    requires a > 0.0 && b > 0.0
    ensures a * b > 0.0
  {
  }

  lemma MulNegative(a: real, b: real)
    requires a < 0.0 && b < 0.0
    ensures a * b > 0.0
  {
  }

  lemma SquareIsProduct(x: real)
    ensures Pow(x, 2) == x * x
  {
    assert Pow(x, 1) == x;
  }

  /** Squaring forgets the sign. */
  lemma SquareOfAbs(x: real)
    ensures Pow(Abs(x), 2) == Pow(x, 2)
  {
    SquareIsProduct(x);
    SquareIsProduct(-x);
    assert (-x) * (-x) == x * x;
  }

  /** On magnitudes, squaring keeps the order, in both directions. */
  lemma SquareOrder(a: real, b: real)
    ensures Pow(a, 2) < Pow(b, 2) <==> Abs(a) < Abs(b)
  {
    SquareOfAbs(a);
    SquareOfAbs(b);
    if Abs(a) < Abs(b) {
      SquareMonotone(Abs(a), Abs(b));
    } else {
      SquareMonotoneWeak(Abs(b), Abs(a));
    }
  }

  lemma SquareMonotone(x: real, y: real)
    requires 0.0 <= x < y
    ensures Pow(x, 2) < Pow(y, 2)
  {
    assert Pow(x, 1) == x && Pow(y, 1) == y;
    assert Pow(x, 2) == x * Pow(x, 1) && Pow(y, 2) == y * Pow(y, 1);
    MulMonotone(x, Pow(x, 1), y);
    MulStrictlyMonotone(Pow(y, 1), x, y);
    assert x * y == x * Pow(y, 1);
  }

  lemma SquareMonotoneWeak(x: real, y: real)
    requires 0.0 <= x <= y
    ensures Pow(x, 2) <= Pow(y, 2)
  {
    SquareIsProduct(x);
    SquareIsProduct(y);
    MulMonotone(x, x, y);
    MulMonotone(y, x, y);
  }

  lemma MulMonotone(k: real, a: real, b: real)
    requires k >= 0.0 && a <= b
    ensures k * a <= k * b
  {
  }

  lemma MulStrictlyMonotone(k: real, a: real, b: real)
    requires k > 0.0 && a < b
    ensures a * k < b * k
  {
  }

  /** π·(d/2)² with the diameter converted to centimetres: a circle of
      radius 1.27·d cm. */
  function AreaFromDiameterInInches(pi: PositiveReal, dIn: real): (a: real)
    ensures a == pi * 1.6129 * Pow(dIn, 2)
  {
    var dCm := InchesToCm(dIn);
    SquareIsProduct(dIn);
    SquareIsProduct(dCm / 2.0);
    assert (dCm / 2.0) * (dCm / 2.0) == 1.6129 * (dIn * dIn);
    pi * Pow(dCm / 2.0, 2)
  }

  /** The area grows with the square of the diameter: it is
      π·1.27²·d² cm², never negative, zero only for a zero diameter, and
      blind to the sign of the diameter. */
  lemma AreaFormula(pi: PositiveReal, d: real)
    ensures AreaFromDiameterInInches(pi, d) >= 0.0
    ensures AreaFromDiameterInInches(pi, d) > 0.0 <==> d != 0.0
    ensures AreaFromDiameterInInches(pi, -d) == AreaFromDiameterInInches(pi, d)
  {
    SquareIsProduct(d);
    SquareIsProduct(-d);
    assert (-d) * (-d) == d * d;
    SquareSign(d);
    var k := pi * 1.6129;
    MulPositive(pi, 1.6129);
    if d != 0.0 {
      MulPositive(k, Pow(d, 2));
    }
  }

  /** A larger area belongs exactly to a larger diameter magnitude. */
  lemma AreaOrder(pi: PositiveReal, d1: real, d2: real)
    ensures AreaFromDiameterInInches(pi, d1) < AreaFromDiameterInInches(pi, d2) <==> Abs(d1) < Abs(d2)
  {
    AreaFormula(pi, d1);
    AreaFormula(pi, d2);
    SquareOrder(d1, d2);
    var k := pi * 1.6129;
    MulPositive(pi, 1.6129);
    if Pow(d1, 2) < Pow(d2, 2) {
      MulStrictlyMonotone(k, Pow(d1, 2), Pow(d2, 2));
    } else {
      MulMonotone(k, Pow(d2, 2), Pow(d1, 2));
    }
  }

  /** The cross-sections one calculation uses. */
  datatype Areas = Areas(pipeInner: real, pipeOuter: real, casing: real, annulus: real)

  function ComputeAreas(pi: PositiveReal, pipeId: real, pipeOd: real, casingId: real): (a: Areas)
    ensures a.annulus == a.casing - a.pipeOuter
    ensures a.pipeInner >= 0.0 && a.pipeOuter >= 0.0 && a.casing >= 0.0
    ensures a.annulus > 0.0 <==> Abs(pipeOd) < Abs(casingId)
  {
    AreaFormula(pi, pipeId);
    AreaFormula(pi, pipeOd);
    AreaFormula(pi, casingId);
    AreaOrder(pi, pipeOd, casingId);
    var casing := AreaFromDiameterInInches(pi, casingId);
    var pipeOuter := AreaFromDiameterInInches(pi, pipeOd);
    Areas(AreaFromDiameterInInches(pi, pipeId), pipeOuter, casing, casing - pipeOuter)
  }

  /** L/min to cm³/s: a litre is 1000 cm³ and a minute 60 s. */
  function LitresPerMinuteToCm3PerSecond(q: real): (qCms: real)
    ensures qCms * 60.0 == q * 1000.0
    ensures qCms > 0.0 <==> q > 0.0
  {
    q * 1000.0 / 60.0
  }

  /** The mean velocity in m/s of `qCms` cm³/s through `area` cm²; defined
      only for a positive area. Velocity times area gives back the flow,
      and a positive flow gives a positive velocity. */
  function Velocity(qCms: real, area: real): (v: Option<real>)
    ensures v.Some? <==> area > 0.0
    ensures v.Some? ==> v.value * area * 100.0 == qCms
    ensures v.Some? && qCms > 0.0 ==> v.value > 0.0
  {
    if area > 0.0 then Some(qCms / area / 100.0) else None
  }

  /** For one flow, the larger cross-section is the slower one. */
  lemma SlowerThroughLargerArea(qCms: real, a1: real, a2: real)
    requires qCms > 0.0 && a1 > 0.0 && a2 > 0.0
    ensures Velocity(qCms, a1).value < Velocity(qCms, a2).value <==> a1 > a2
  {
  }
}
