/** One run of `calculateVelocity` (script.js:208-521) as a function of the
    form's inputs: the dimension fallbacks, the tool-joint warning, the
    validity guard, areas and velocities, the Reynolds stage and its
    step-by-step trace, and the hole-cleaning warning. */
module FlowEngine {
  import opened Wrappers
  import opened Numbers
  import opened Rheology
  import opened Geometry
  import opened Reynolds

  /** Annulus velocities below this many m/s raise the hole-cleaning warning. */
  const HOLE_CLEANING_VELOCITY: real := 1.0

  /** What the form holds when the calculation runs. An input element that
      is absent reads as `Undefined`. `toolJointOd` is the `data-tjod`
      attribute of the selected drill-pipe option. */
  datatype FlowInputs = FlowInputs(
    flowRate: JsValue,
    casingId: JsValue, casingSize: JsValue,
    drillId: JsValue, drillOd: JsValue, drillSize: JsValue,
    toolJointOd: JsValue,
    specificGravity: JsValue,
    mode: ViscosityMode, apparentViscosity: JsValue, rpm600: JsValue, rpm300: JsValue,
    showReynolds: bool)

  /** The diameters in inches the calculation uses. */
  datatype Dimensions = Dimensions(casing: JsNumber, pipeId: JsNumber, pipeOd: JsNumber)

  /** Each typed-in diameter wins unless it is missing or zero, in which
      case the selected catalogue size stands in. The nominal drill-pipe
      size stands in for both the inner and the outer diameter. */
  function ResolveDimensions(i: FlowInputs): (d: Dimensions)
    ensures Truthy(ParseNum(i.casingId)) ==> d.casing == ParseNum(i.casingId)
    ensures !Truthy(ParseNum(i.casingId)) ==> d.casing == ParseNum(i.casingSize)
    ensures Truthy(ParseNum(i.drillId)) ==> d.pipeId == ParseNum(i.drillId)
    ensures !Truthy(ParseNum(i.drillId)) ==> d.pipeId == ParseNum(i.drillSize)
    ensures Truthy(ParseNum(i.drillOd)) ==> d.pipeOd == ParseNum(i.drillOd)
    ensures !Truthy(ParseNum(i.drillOd)) ==> d.pipeOd == ParseNum(i.drillSize)
  {
    Dimensions(
      Or(ParseNum(i.casingId), ParseNum(i.casingSize)),
      Or(ParseNum(i.drillId), ParseNum(i.drillSize)),
      Or(ParseNum(i.drillOd), ParseNum(i.drillSize)))
  }

  /** The tool joint does not fit: both its OD and the casing ID are known
      and non-zero, and the tool joint is the wider. A missing value on
      either side never warns. */
  function ToolJointClash(tjOd: JsNumber, casing: JsNumber): (clash: bool)
    ensures clash <==>
      tjOd.Some? && casing.Some? && tjOd.value != 0.0 && casing.value != 0.0 && tjOd.value > casing.value
  {
    Truthy(tjOd) && Truthy(casing) && tjOd.value > casing.value
  }

  /** The guard: a positive flow rate and a non-zero pipe ID, pipe OD and
      casing ID. Negative diameters pass. */
  function ValidInputs(flow: JsNumber, d: Dimensions): (valid: bool)
    ensures valid <==>
      && flow.Some? && flow.value > 0.0
      && d.pipeId.Some? && d.pipeId.value != 0.0
      && d.pipeOd.Some? && d.pipeOd.value != 0.0
      && d.casing.Some? && d.casing.value != 0.0
  {
    Truthy(flow) && flow.value > 0.0 && Truthy(d.pipeId) && Truthy(d.pipeOd) && Truthy(d.casing)
  }

  /** The trace of both flow paths, built only when Reynolds is shown. */
  datatype Trace = Trace(pipe: PathTrace, annulus: PathTrace)

  /** Everything computed past the guard. */
  datatype Computation = Computation(
    areas: Areas, qCms: real, vPipe: JsNumber, vAnn: JsNumber,
    rheology: RheologyResult, rho: real, mu: real,
    pipeIdM: JsNumber, hydraulicDiameter: JsNumber,
    rePipe: JsNumber, reAnn: JsNumber,
    trace: Option<Trace>)

  /** The outcome of one run: the two warnings, and the computation when
      the guard lets it through. */
  datatype FlowState = FlowState(toolJointWarning: bool, holeCleaningWarning: bool, computed: Option<Computation>)

  /** The inputs once parsed: the numbers the engine works on. */
  datatype ParsedInputs = ParsedInputs(
    flow: JsNumber, dims: Dimensions, toolJointOd: JsNumber, specificGravity: JsNumber,
    rheology: RheologyResult, showReynolds: bool)

  function ParseInputs(i: FlowInputs): ParsedInputs {
    ParsedInputs(
      ParseNum(i.flowRate), ResolveDimensions(i), ParseNum(i.toolJointOd), ParseNum(i.specificGravity),
      CalculateRheology(i.mode, i.apparentViscosity, i.rpm600, i.rpm300), i.showReynolds)
  }

  /** The body of calculateVelocity past the guard (script.js:250-299,
      485-486): the trace is built exactly when Reynolds is shown, the
      simple viscosity is positive, the pipe's diameter is its ID in metres
      and the annulus's is the radial gap in metres. */
  function Compute(pi: PositiveReal, p: ParsedInputs): (c: Computation)
    requires ValidInputs(p.flow, p.dims)
    ensures c.trace.Some? <==> p.showReynolds
    ensures c.rheology == p.rheology && c.mu > 0.0
    ensures c.pipeIdM == Some(p.dims.pipeId.value * M_PER_INCH)
    ensures c.hydraulicDiameter.Some? ==>
      c.hydraulicDiameter.value == (p.dims.casing.value - p.dims.pipeOd.value) * M_PER_INCH
  {
    var d := p.dims;
    var areas := ComputeAreas(pi, d.pipeId.value, d.pipeOd.value, d.casing.value);
    var qCms := LitresPerMinuteToCm3PerSecond(p.flow.value);
    var vPipe := Velocity(qCms, areas.pipeInner);
    var vAnn := Velocity(qCms, areas.annulus);
    var rho := Density(p.specificGravity);
    var mu := SimpleViscosity(p.rheology.av);
    var pipeIdM := InchesToMeters(d.pipeId);
    var dh := HydraulicDiameter(InchesToMeters(d.casing), InchesToMeters(d.pipeOd));
    var trace :=
      if p.showReynolds then
        Some(Trace(TracePath(p.rheology, rho, vPipe, pipeIdM), TracePath(p.rheology, rho, vAnn, dh)))
      else None;
    Computation(areas, qCms, vPipe, vAnn, p.rheology, rho, mu, pipeIdM, dh,
                SimpleReynolds(rho, vPipe, pipeIdM, mu), SimpleReynolds(rho, vAnn, dh, mu), trace)
  }

  /** The engine on parsed inputs: the tool-joint check comes first and
      does not depend on the guard; the hole-cleaning warning is read off
      the computed annulus velocity, and is off when the guard fails. */
  function Run(pi: PositiveReal, p: ParsedInputs): (r: FlowState)
    ensures r.toolJointWarning == ToolJointClash(p.toolJointOd, p.dims.casing)
    ensures r.computed.Some? <==> ValidInputs(p.flow, p.dims)
    ensures r.computed.Some? ==> r.computed.value.vPipe.Some? && r.computed.value.vPipe.value > 0.0
    ensures r.holeCleaningWarning ==> r.computed.Some?
  {
    var tjWarning := ToolJointClash(p.toolJointOd, p.dims.casing);
    if !ValidInputs(p.flow, p.dims) then
      FlowState(tjWarning, false, None)
    else
      var c := Compute(pi, p);
      PipeVelocityDefined(pi, p);
      FlowState(tjWarning, c.vAnn.Some? && c.vAnn.value < HOLE_CLEANING_VELOCITY, Some(c))
  }

  /** One run of calculateVelocity on the form's inputs: the parsed
      tool-joint OD against the resolved casing ID decides the tool-joint
      warning; a computation is made exactly when the parsed flow rate and
      the resolved diameters pass the guard, and it then has a positive pipe
      velocity, the rheology of the viscosity fields, and a trace exactly
      when Reynolds is shown. */
  function CalculateVelocity(pi: PositiveReal, i: FlowInputs): (r: FlowState)
    ensures r.toolJointWarning == ToolJointClash(ParseNum(i.toolJointOd), ResolveDimensions(i).casing)
    ensures r.computed.Some? <==> ValidInputs(ParseNum(i.flowRate), ResolveDimensions(i))
    ensures r.computed.Some? ==>
      && r.computed.value.vPipe.Some? && r.computed.value.vPipe.value > 0.0
      && r.computed.value.rheology == CalculateRheology(i.mode, i.apparentViscosity, i.rpm600, i.rpm300)
      && (r.computed.value.trace.Some? <==> i.showReynolds)
  {
    Run(pi, ParseInputs(i))
  }

  // ---------------------------------------------------------------------
  // Properties of a run

  /** The tool-joint warning reads only the tool-joint OD and the casing
      ID: it is on exactly when both are known and non-zero and the tool
      joint is the larger, whatever the flow rate and the other inputs. */
  lemma ToolJointWarningIndependent(pi: PositiveReal, p: ParsedInputs, flow: JsNumber)
    ensures var tj, c := p.toolJointOd, p.dims.casing;
      Run(pi, p).toolJointWarning <==>
        tj.Some? && c.Some? && tj.value != 0.0 && c.value != 0.0 && tj.value > c.value
    ensures Run(pi, p.(flow := flow)).toolJointWarning == Run(pi, p).toolJointWarning
  {
  }

  /** A tool joint of 6.5 in inside a 6.0 in casing warns even with no flow
      rate entered, and then no velocity is computed. */
  lemma ToolJointWarningExample(pi: PositiveReal, p: ParsedInputs)
    requires p.toolJointOd == Some(6.5) && p.dims.casing == Some(6.0) && p.flow == None
    ensures Run(pi, p).toolJointWarning
    ensures Run(pi, p).computed == None
  {
  }

  /** A missing or non-positive flow rate, or a missing or zero diameter,
      stops the run: nothing is computed and the hole-cleaning warning is
      cleared. Any other inputs are computed. */
  lemma GuardDecidesComputation(pi: PositiveReal, p: ParsedInputs)
    ensures Run(pi, p).computed == None <==>
      || !Truthy(p.flow) || p.flow.value <= 0.0
      || !Truthy(p.dims.pipeId) || !Truthy(p.dims.pipeOd) || !Truthy(p.dims.casing)
    ensures Run(pi, p).computed == None ==> !Run(pi, p).holeCleaningWarning
    ensures Run(pi, p).computed.Some? ==> Run(pi, p).computed.value == Compute(pi, p)
  {
  }

  /** On valid inputs the pipe velocity is always defined and positive, and
      it carries the flow through the pipe's bore. */
  lemma PipeVelocityDefined(pi: PositiveReal, p: ParsedInputs)
    requires ValidInputs(p.flow, p.dims)
    ensures var c := Compute(pi, p);
      && c.vPipe.Some? && c.vPipe.value > 0.0
      && c.vPipe.value * c.areas.pipeInner * 100.0 == p.flow.value * 1000.0 / 60.0
  {
    AreaFormula(pi, p.dims.pipeId.value);
  }

  /** On valid inputs the annulus velocity is defined exactly when the
      casing ID exceeds the pipe OD in magnitude, that is when the casing
      area exceeds the pipe-OD area, and it is then positive. */
  lemma AnnulusVelocityDefined(pi: PositiveReal, p: ParsedInputs)
    requires ValidInputs(p.flow, p.dims)
    ensures var c := Compute(pi, p);
      && (c.vAnn.Some? <==> Abs(p.dims.pipeOd.value) < Abs(p.dims.casing.value))
      && (c.vAnn.Some? <==> c.areas.casing > c.areas.pipeOuter)
      && (c.vAnn.Some? ==> c.vAnn.value > 0.0)
  {
  }

  /** For the same flow, the annulus is slower than the pipe bore exactly
      when its cross-section is the larger. */
  lemma AnnulusSlowerIffLarger(pi: PositiveReal, p: ParsedInputs)
    requires ValidInputs(p.flow, p.dims)
    ensures var c := Compute(pi, p);
      c.vPipe.Some? && ((c.vAnn.Some? && c.vAnn.value < c.vPipe.value) <==> c.areas.annulus > c.areas.pipeInner)
  {
    var c := Compute(pi, p);
    ComputedVelocities(pi, p);
    if c.areas.annulus > 0.0 {
      SlowerThroughLargerArea(c.qCms, c.areas.annulus, c.areas.pipeInner);
    }
  }

  lemma ComputedVelocities(pi: PositiveReal, p: ParsedInputs)
    requires ValidInputs(p.flow, p.dims)
    ensures var c := Compute(pi, p);
      && c.qCms > 0.0 && c.areas.pipeInner > 0.0
      && c.vPipe == Velocity(c.qCms, c.areas.pipeInner)
      && c.vAnn == Velocity(c.qCms, c.areas.annulus)
  {
    AreaFormula(pi, p.dims.pipeId.value);
  }

  /** The hole-cleaning warning is on exactly when the run computed an
      annulus velocity and it is below 1 m/s. */
  lemma HoleCleaningWarning(pi: PositiveReal, p: ParsedInputs)
    ensures var s := Run(pi, p);
      s.holeCleaningWarning <==>
        s.computed.Some? && s.computed.value.vAnn.Some? && s.computed.value.vAnn.value < 1.0
  {
  }

  /** Showing or hiding the Reynolds panel changes only whether the trace
      is built: the velocities, warnings and Reynolds numbers are the same. */
  lemma ReynoldsIndependentOfDisplay(pi: PositiveReal, p: ParsedInputs, show: bool)
    ensures var s, t := Run(pi, p), Run(pi, p.(showReynolds := show));
      && s.toolJointWarning == t.toolJointWarning
      && s.holeCleaningWarning == t.holeCleaningWarning
      && s.computed.Some? == t.computed.Some?
      && (s.computed.Some? ==>
            s.computed.value.(trace := None) == t.computed.value.(trace := None)
            && (t.computed.value.trace.Some? <==> show))
  {
  }

  /** In simple-AV mode with a positive AV, the pipe trace agrees with the
      displayed pipe Reynolds number whenever the density and the pipe ID
      are positive, and neither path takes the Bingham branch. */
  lemma SimpleModePipeTrace(pi: PositiveReal, p: ParsedInputs)
    requires ValidInputs(p.flow, p.dims) && p.showReynolds
    requires !p.rheology.usedFann && p.rheology.av > 0.0
    requires p.dims.pipeId.value > 0.0
    requires Density(p.specificGravity) > 0.0
    ensures var c := Compute(pi, p);
      && c.trace.value.pipe.re == c.rePipe
      && !c.trace.value.pipe.viscosity.Bingham?
      && !c.trace.value.annulus.viscosity.Bingham?
  {
    var c := Compute(pi, p);
    SimpleModeTraceAgrees(c.rheology, c.rho, c.vPipe, c.pipeIdM);
    SimpleModeFallsBack(c.rheology, c.rho, c.vPipe, c.pipeIdM);
    SimpleModeFallsBack(c.rheology, c.rho, c.vAnn, c.hydraulicDiameter);
  }

  /** When neither drill-pipe field holds a usable value, the nominal size
      stands in for both, so the pipe ID equals the pipe OD. */
  lemma NominalSizeFallback(i: FlowInputs)
    requires !Truthy(ParseNum(i.drillId)) && !Truthy(ParseNum(i.drillOd))
    ensures ResolveDimensions(i).pipeId == ResolveDimensions(i).pipeOd == ParseNum(i.drillSize)
  {
  }

  /** 300 L/min through a 3 in bore and an 8.5 in casing around a 5 in
      pipe: 5000 cm³/s, the pipe velocity is 50/(14.5161·π) m/s, the
      annulus velocity 50/(76.209525·π) m/s, the annulus is the slower, and
      for any π above 3 it is below 1 m/s, so the hole-cleaning warning is
      on. */
  lemma ScenarioExample(pi: PositiveReal, p: ParsedInputs)
    requires pi > 3.0
    requires p.flow == Some(300.0) && p.dims == Dimensions(Some(8.5), Some(3.0), Some(5.0))
    ensures var c := Compute(pi, p);
      && c.qCms == 5000.0
      && c.vPipe.Some? && c.vPipe.value * (14.5161 * pi) == 50.0
      && c.vAnn.Some? && c.vAnn.value * (76.209525 * pi) == 50.0
      && c.vAnn.value < c.vPipe.value
    ensures Run(pi, p).holeCleaningWarning
  {
    var c := Compute(pi, p);
    AreaFormula(pi, 3.0);
    AreaFormula(pi, 5.0);
    AreaFormula(pi, 8.5);
    SquareIsProduct(3.0);
    SquareIsProduct(5.0);
    SquareIsProduct(8.5);
    assert c.areas.pipeInner == 14.5161 * pi;
    assert c.areas.annulus == 76.209525 * pi;
    ComputedVelocities(pi, p);
    AnnulusSlowerIffLarger(pi, p);
    var k := 76.209525 * pi;
    assert k > 200.0;
    assert c.vAnn.value * k == 50.0;
  }

  /** The 1 m/s threshold is strict: an annulus velocity of 0.95 m/s warns,
      1.05 m/s does not, and exactly 1 m/s does not. */
  lemma HoleCleaningThresholdExamples(pi: PositiveReal, p: ParsedInputs)
    requires ValidInputs(p.flow, p.dims)
    ensures Compute(pi, p).vAnn == Some(0.95) ==> Run(pi, p).holeCleaningWarning
    ensures Compute(pi, p).vAnn == Some(1.05) ==> !Run(pi, p).holeCleaningWarning
    ensures Compute(pi, p).vAnn == Some(1.0) ==> !Run(pi, p).holeCleaningWarning
  {
  }
}
