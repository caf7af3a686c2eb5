/** The Reynolds stage of `calculateVelocity` (script.js:271-299) and the
    per-path step-by-step trace of `buildStepsElement` (script.js:388-416):
    density, viscosity, hydraulic diameter, shear rate, the Bingham-plastic
    effective viscosity and the Reynolds numbers built on them. */
module Reynolds {
  import opened Wrappers
  import opened Numbers
  import opened Geometry
  import opened Rheology

  const DEFAULT_SPECIFIC_GRAVITY: real := 1.03
  /** 1 lbf/100ft² in Pa (script.js:61). */
  const YP_TO_PA: real := 0.478802657
  /** The viscosity used when no apparent viscosity is known, in Pa·s. */
  const DEFAULT_VISCOSITY: real := 0.001
  const M_PER_INCH: real := 0.0254

  // ---------------------------------------------------------------------
  // The displayed Reynolds numbers

  /** ρ in kg/m³ from `parseNum(sg) || 1.03`: a missing or zero specific
      gravity takes the default, any other value (negative ones included)
      is used as it is. */
  function Density(sg: JsNumber): (rho: real)
    ensures Truthy(sg) ==> rho == sg.value * 1000.0
    ensures !Truthy(sg) ==> rho == 1030.0
    ensures rho != 0.0
    ensures rho > 0.0 <==> !Truthy(sg) || sg.value > 0.0
  {
    Or(sg, Some(DEFAULT_SPECIFIC_GRAVITY)).value * 1000.0
  }

  /** The simple viscosity in Pa·s: AV (cP) / 1000 when AV is positive and
      the 0.001 floor otherwise, so it is always positive. */
  function SimpleViscosity(av: real): (mu: real)
    ensures mu > 0.0
    ensures av > 0.0 ==> mu * 1000.0 == av
    ensures av <= 0.0 ==> mu == DEFAULT_VISCOSITY
  {
    if av > 0.0 then av / 1000.0 else DEFAULT_VISCOSITY
  }

  /** A diameter in metres; the code leaves it NaN when the inch value is
      missing or zero. */
  function InchesToMeters(d: JsNumber): (m: JsNumber)
    ensures m.Some? <==> Truthy(d)
    ensures m.Some? ==> m.value == d.value * M_PER_INCH && m.value != 0.0
    ensures m.Some? ==> (m.value > 0.0 <==> d.value > 0.0)
  {
    if Truthy(d) then Some(d.value * M_PER_INCH) else None
  }

  /** The annulus hydraulic diameter (c² − p²)/(c + p). It is computed only
      when both diameters are known and the casing is the larger; a pipe
      diameter of exactly −c gives 0/0, which is missing. */
  function HydraulicDiameter(casingM: JsNumber, pipeOdM: JsNumber): (dh: JsNumber)
    ensures dh.Some? <==>
      casingM.Some? && pipeOdM.Some? && casingM.value > pipeOdM.value
      && casingM.value + pipeOdM.value != 0.0
    ensures dh.Some? ==> dh.value == casingM.value - pipeOdM.value && dh.value > 0.0
  {
    if casingM.Some? && pipeOdM.Some? && casingM.value > pipeOdM.value then
      var c, p := casingM.value, pipeOdM.value;
      if c + p != 0.0 then
        HydraulicDiameterIsGap(c, p);
        Some((Pow(c, 2) - Pow(p, 2)) / (c + p))
      else None
    else None
  }

  /** (c² − p²)/(c + p) is the radial gap c − p. */
  lemma HydraulicDiameterIsGap(c: real, p: real)
    requires c + p != 0.0
    ensures (Pow(c, 2) - Pow(p, 2)) / (c + p) == c - p
  {
    SquareIsProduct(c);
    SquareIsProduct(p);
    assert Pow(c, 2) - Pow(p, 2) == (c - p) * (c + p);
    DivCancel(c - p, c + p);
  }

  lemma DivCancel(a: real, k: real)
    requires k != 0.0
    ensures a * k / k == a
  {
  }

  /** The displayed Reynolds number ρ·v·D/μ. The code computes it only for
      a known velocity and diameter and a positive density and viscosity,
      and leaves it NaN otherwise. */
  function SimpleReynolds(rho: real, v: JsNumber, d: JsNumber, mu: real): (re: JsNumber)
    ensures re.Some? <==> v.Some? && d.Some? && rho > 0.0 && mu > 0.0
    ensures re.Some? ==> re.value * mu == rho * v.value * d.value
  {
    if v.Some? && d.Some? && rho > 0.0 && mu > 0.0 then
      var re := rho * v.value * d.value / mu;
      Some(re)
    else None
  }

  /** For a positive density, velocity and diameter the displayed Reynolds
      number is positive, and it grows with the velocity. */
  lemma SimpleReynoldsOrder(rho: real, v1: real, v2: real, d: real, mu: real)
    requires rho > 0.0 && d > 0.0 && mu > 0.0 && 0.0 < v1 < v2
    ensures 0.0 < SimpleReynolds(rho, Some(v1), Some(d), mu).value
                < SimpleReynolds(rho, Some(v2), Some(d), mu).value
  {
  }

  // ---------------------------------------------------------------------
  // The step-by-step trace of one flow path

  /** γ̇ = 8v/D, only for a known velocity and a positive diameter. */
  function ShearRate(v: JsNumber, d: JsNumber): (g: JsNumber)
    ensures g.Some? <==> v.Some? && d.Some? && d.value > 0.0
    ensures g.Some? ==> g.value * d.value == 8.0 * v.value
    ensures g.Some? ==> (g.value > 0.0 <==> v.value > 0.0)
  {
    if v.Some? && Truthy(d) && d.value > 0.0 then Some(8.0 * v.value / d.value) else None
  }

  /** Where the trace's viscosity came from. */
  datatype EffectiveViscosity =
    | Bingham(mu: real)     // μ_p + τ₀/γ̇
    | FallbackAV(mu: real)  // AV/1000, marked as the fallback in the trace
    | NoViscosity           // NaN

  /** The Bingham-plastic effective viscosity of a path from the PV, YP and
      AV read back from the display: μ_p + τ₀/γ̇ when the shear rate is
      positive and PV and YP are known, else AV/1000 when AV is positive,
      else nothing. */
  function EffectiveViscosityOf(pv: JsNumber, yp: JsNumber, av: JsNumber, gamma: JsNumber): (m: EffectiveViscosity)
    ensures m.Bingham? <==> gamma.Some? && gamma.value > 0.0 && pv.Some? && yp.Some?
    ensures m.Bingham? ==>
      (m.mu - pv.value / 1000.0) * gamma.value == yp.value * YP_TO_PA
    ensures m.FallbackAV? <==>
      !(gamma.Some? && gamma.value > 0.0 && pv.Some? && yp.Some?) && av.Some? && av.value > 0.0
    ensures m.FallbackAV? ==> m.mu * 1000.0 == av.value && m.mu > 0.0
  {
    var muP := if pv.Some? then Some(pv.value / 1000.0) else None;
    var tau0 := if yp.Some? then Some(yp.value * YP_TO_PA) else None;
    if gamma.Some? && gamma.value > 0.0 && muP.Some? && tau0.Some? then
      Bingham(muP.value + tau0.value / gamma.value)
    else if av.Some? && av.value > 0.0 then
      FallbackAV(av.value / 1000.0)
    else
      NoViscosity
  }

  /** The trace's Reynolds number ρ·v·D/μ_eff. It needs a known μ_eff, a
      known velocity and a positive diameter; the density is not checked.
      A zero μ_eff makes JavaScript divide by zero, which is missing here. */
  function TraceReynolds(rho: real, v: JsNumber, d: JsNumber, m: EffectiveViscosity): (re: JsNumber)
    ensures re.Some? <==> !m.NoViscosity? && m.mu != 0.0 && v.Some? && d.Some? && d.value > 0.0
    ensures re.Some? ==> re.value * m.mu == rho * v.value * d.value
  {
    if !m.NoViscosity? && m.mu != 0.0 && v.Some? && Truthy(d) && d.value > 0.0 then
      Some(rho * v.value * d.value / m.mu)
    else None
  }

  /** What the trace of one path shows. */
  datatype PathTrace = PathTrace(shearRate: JsNumber, viscosity: EffectiveViscosity, re: JsNumber)

  /** buildStepsElement(name, v, d): PV, YP and AV are the values the
      rheology panel shows (a "-" reads back as NaN). The Bingham branch is
      taken only in Fann mode, with non-negative PV and YP and a positive
      shear rate; the fallback is the panel's AV; the Reynolds number
      divides ρ·v·D by whichever viscosity was chosen. */
  function TracePath(r: RheologyResult, rho: real, v: JsNumber, d: JsNumber): (t: PathTrace)
    ensures t.shearRate.Some? <==> v.Some? && d.Some? && d.value > 0.0
    ensures t.viscosity.Bingham? <==>
      r.usedFann && r.pv >= 0.0 && r.yp >= 0.0 && t.shearRate.Some? && t.shearRate.value > 0.0
    ensures t.viscosity.FallbackAV? ==> r.av > 0.0 && t.viscosity.mu * 1000.0 == r.av
    ensures t.re.Some? ==> t.shearRate.Some? && !t.viscosity.NoViscosity? && t.re.value * t.viscosity.mu == rho * v.value * d.value
  {
    var gamma := ShearRate(v, d);
    var m := EffectiveViscosityOf(ShownPlasticViscosity(r), ShownYieldPoint(r), ShownApparentViscosity(r), gamma);
    PathTrace(gamma, m, TraceReynolds(rho, v, d, m))
  }

  /** In simple-AV mode PV and YP are dashes, so the trace never takes the
      Bingham branch: it falls back to AV/1000 exactly when AV is positive,
      and that is the displayed viscosity. */
  lemma SimpleModeFallsBack(r: RheologyResult, rho: real, v: JsNumber, d: JsNumber)
    requires !r.usedFann
    ensures !TracePath(r, rho, v, d).viscosity.Bingham?
    ensures TracePath(r, rho, v, d).viscosity.FallbackAV? <==> r.av > 0.0
    ensures r.av > 0.0 ==> TracePath(r, rho, v, d).viscosity.mu == SimpleViscosity(r.av)
  {
  }

  /** In simple-AV mode with a positive AV and a positive density, the
      trace of a path with a positive diameter reports the same Reynolds
      number as the display. */
  lemma SimpleModeTraceAgrees(r: RheologyResult, rho: real, v: JsNumber, d: JsNumber)
    requires !r.usedFann && r.av > 0.0 && rho > 0.0
    requires d.Some? && d.value > 0.0
    ensures TracePath(r, rho, v, d).re == SimpleReynolds(rho, v, d, SimpleViscosity(r.av))
  {
    SimpleModeFallsBack(r, rho, v, d);
    var mu := SimpleViscosity(r.av);
    var t := TracePath(r, rho, v, d);
    var s := SimpleReynolds(rho, v, d, mu);
    if v.Some? {
      assert t.re.Some? && s.Some?;
      assert t.re.value * mu == s.value * mu;
      CancelPositive(t.re.value, s.value, mu);
    }
  }

  lemma CancelPositive(a: real, b: real, k: real)
    requires k > 0.0 && a * k == b * k
    ensures a == b
  {
  }

  /** In Fann mode with both PV and YP shown, a positive shear rate gives
      the Bingham viscosity, which is at least the plastic viscosity. */
  lemma FannModeBingham(r: RheologyResult, rho: real, v: JsNumber, d: JsNumber)
    requires r.usedFann && r.pv >= 0.0 && r.yp >= 0.0
    requires v.Some? && v.value > 0.0 && d.Some? && d.value > 0.0
    ensures TracePath(r, rho, v, d).viscosity.Bingham?
    ensures TracePath(r, rho, v, d).viscosity.mu >= r.pv / 1000.0
  {
  }

  /** Without a usable diameter the trace falls back: D = 0 with AV = 30 cP
      gives the marked fallback viscosity 0.03 Pa·s and no Reynolds number. */
  lemma FallbackExample(rho: real)
    ensures var r := CalculateRheology(SimpleAV, Number(Some(30.0)), Undefined, Undefined);
      TracePath(r, rho, Some(1.0), Some(0.0)) == PathTrace(None, FallbackAV(0.03), None)
  {
  }
}
