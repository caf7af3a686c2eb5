/** Drilling-fluid rheology as `calculateRheology` derives it
    (script.js:75-116): plastic viscosity, yield point and apparent
    viscosity, either from a single apparent-viscosity field or from the
    600 and 300 RPM Fann viscometer dial readings. */
module Rheology {
  import opened Wrappers
  import opened Numbers

  /** Which way the viscosity is entered: the "use Fann readings" checkbox
      (reported as unchecked when the checkbox is absent). */
  datatype ViscosityMode = SimpleAV | FannReadings

  /** The returned values: PV in cP, YP in lbf/100ft², AV in cP. */
  datatype RheologyResult = RheologyResult(pv: real, yp: real, av: real, usedFann: bool)

  /** calculateRheology's returned values. A missing or zero field counts
      as 0 (`parseNum(...) || 0`). */
  function CalculateRheology(mode: ViscosityMode, apparentViscosity: JsValue,
                             rpm600: JsValue, rpm300: JsValue): (r: RheologyResult)
    ensures r.usedFann <==> mode == FannReadings
    ensures mode == SimpleAV ==>
      r.pv == 0.0 && r.yp == 0.0 && r.av == ParseNum(apparentViscosity).GetOr(0.0)
    ensures mode == FannReadings ==>
      var r600, r300 := ParseNum(rpm600).GetOr(0.0), ParseNum(rpm300).GetOr(0.0);
      && r.pv == r600 - r300
      && r.pv + r.yp == r300
      && 2.0 * r.av == r600
  {
    match mode
    case SimpleAV =>
      RheologyResult(0.0, 0.0, OrZero(ParseNum(apparentViscosity)), false)
    case FannReadings =>
      var r600 := OrZero(ParseNum(rpm600));
      var r300 := OrZero(ParseNum(rpm300));
      var pv := r600 - r300;
      RheologyResult(pv, r300 - pv, r600 / 2.0, true)
  }

  // ---------------------------------------------------------------------
  // What the rheology panel shows. A value that is shown as "-" reads back
  // as NaN; the reading-back stage sees only what is shown. The one-decimal
  // rounding of the display is taken as exact.

  /** PV and YP follow one display rule: shown only in Fann mode, and then
      only when not negative; `x` is the value (PV or YP) to be shown. */
  function ShownFannValue(r: RheologyResult, x: real): (shown: JsNumber)
    ensures shown.Some? ==> r.usedFann && shown.value == x && shown.value >= 0.0
    ensures r.usedFann && x >= 0.0 ==> shown.Some?
  {
    if r.usedFann && x >= 0.0 then Some(x) else None
  }

  /** The PV the panel shows. */
  function ShownPlasticViscosity(r: RheologyResult): JsNumber {
    ShownFannValue(r, r.pv)
  }

  /** The YP the panel shows. */
  function ShownYieldPoint(r: RheologyResult): JsNumber {
    ShownFannValue(r, r.yp)
  }

  /** AV is shown in either mode, but only when it is positive. */
  function ShownApparentViscosity(r: RheologyResult): (av: JsNumber)
    ensures av.Some? ==> av.value == r.av && av.value > 0.0
    ensures r.av > 0.0 ==> av.Some?
  {
    if r.av > 0.0 then Some(r.av) else None
  }

  /** The panel after a calculation: in simple-AV mode PV and YP are dashes
      and AV is shown exactly when the entered value is positive; in Fann
      mode PV and YP are shown exactly when the readings are consistent
      with them being non-negative (600 RPM at least 300 RPM, and 300 RPM at
      least half of 600 RPM). */
  lemma ShownRheology(mode: ViscosityMode, apparentViscosity: JsValue, rpm600: JsValue, rpm300: JsValue)
    ensures var r := CalculateRheology(mode, apparentViscosity, rpm600, rpm300);
      && (mode == SimpleAV ==>
            && ShownPlasticViscosity(r) == None && ShownYieldPoint(r) == None
            && (ShownApparentViscosity(r).Some? <==> ParseNum(apparentViscosity).GetOr(0.0) > 0.0))
      && (mode == FannReadings ==>
            var r600, r300 := ParseNum(rpm600).GetOr(0.0), ParseNum(rpm300).GetOr(0.0);
            && (ShownPlasticViscosity(r) == Some(r.pv) <==> r600 >= r300)
            && (ShownYieldPoint(r) == Some(r.yp) <==> 2.0 * r300 >= r600)
            && (ShownApparentViscosity(r).Some? <==> r600 > 0.0))
  {
  }

  /** The worked example: readings 60 and 35 give PV 25, YP 10 and AV 30;
      a simple AV of 30 gives PV 0, YP 0 and AV 30. */
  lemma RheologyExamples()
    ensures CalculateRheology(FannReadings, Undefined, Number(Some(60.0)), Number(Some(35.0)))
         == RheologyResult(25.0, 10.0, 30.0, true)
    ensures CalculateRheology(SimpleAV, Number(Some(30.0)), Undefined, Undefined)
         == RheologyResult(0.0, 0.0, 30.0, false)
  {
  }
}
