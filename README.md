# Drilling-fluid flow velocity calculator: verified model of the engine

The calculator takes a mud flow rate (L/min), the drill-pipe inner and outer
diameters, the casing inner diameter (inches, typed in or taken from a
catalogue selection) and the fluid's properties. From these it computes:

- the mean velocity in the drill-pipe bore and in the annulus between pipe and casing;
- a tool-joint clearance warning and a hole-cleaning warning;
- optionally, Reynolds numbers, with a step-by-step Bingham-plastic trace for each flow path.

This project models that engine (`script.js`) as pure Dafny functions over
`real` and proves what the code promises about it. The model is split into
six modules:

- `Wrappers` (`wrappers.dfy`): the optional value. `None` is JavaScript's NaN, the code's marker for "missing".
- `Numbers` (`numbers.dfy`):
  - JavaScript truthiness and `x || y` on numbers;
  - `String.prototype.trim`;
  - the part of `Number(string)` the parser relies on: signed decimals with fraction and exponent, and `0x`/`0o`/`0b` integers;
  - the tolerant parser `parseNum`, which accepts a comma as the decimal separator.
- `Rheology` (`rheology.dfy`):
  - `calculateRheology` in both modes: a single apparent-viscosity field, or the 600/300 RPM Fann readings;
  - the panel rule deciding which of PV, YP and AV are shown.
- `Geometry` (`geometry.dfy`):
  - inch to cm conversion and `Math.pow(·, 2)`;
  - circle and annulus areas;
  - L/min to cm³/s and velocity through an area.
- `Reynolds` (`reynolds.dfy`):
  - density from specific gravity and the floored simple viscosity;
  - diameters in metres and the annulus hydraulic diameter;
  - the displayed Reynolds numbers;
  - the trace: shear rate, the effective viscosity μ_eff (Bingham or fallback), and the trace's Reynolds number.
- `FlowEngine` (`flow_engine.dfy`): one run of `calculateVelocity`. It covers the dimension fallbacks, the tool-joint check, the validity guard, the computation past the guard, the trace (built only when Reynolds is shown) and the hole-cleaning warning.

Modelling choices:

- **π** is a parameter `pi` of type `PositiveReal`: an abstract positive constant. The worked scenario only assumes π > 3.
- **`Math.pow(x, 2)`** is `Geometry.Pow(x, 2)`, a whole-exponent power.
- **Form inputs** are `JsValue`s:
  - `Undefined` for an absent element or attribute;
  - `Null`;
  - a JavaScript number;
  - a text.

  `FlowEngine.ParseInputs` parses them. `FlowEngine.Run` is the engine over the parsed numbers. `FlowEngine.CalculateVelocity` is the two composed.
- **The trace** reads PV, YP and AV back from the rheology panel's text. A value shown as "-" reads back as missing. The panel's one-decimal rounding is taken as exact (see "Left out").

## Model

| member | source | states |
|---|---|---|
| `Numbers.ParseNum` | script.js:64-73 | undefined and null give NaN; a number is returned unchanged; blank or all-white-space text gives NaN; text in which no decimal digit occurs ("abc", "-", ".") gives NaN |
| `Numbers.TrimStartSuffix` | script.js:67 | trimming the start keeps exactly the suffix from the first non-blank character, and drops only white space |
| `Numbers.TrimEndPrefix` | script.js:67 | trimming the end keeps exactly the prefix up to the last non-blank character, and drops only white space |
| `Numbers.Trim` | script.js:67 | the trimmed text is no longer than the text, and neither starts nor ends with white space |
| `Numbers.TrimEmptyIffBlank` | script.js:67-68 | the trimmed text is empty exactly when the text is all white space |
| `Numbers.ParseNumCommaIsPoint` | script.js:69-71 | replacing every comma by a period before parsing changes nothing: the comma is a decimal separator |
| `Numbers.ReplaceCommas` | script.js:70 | the length is kept; every comma becomes a period and every other character is kept |
| `Numbers.ReplaceCommasAppend` | script.js:70 | comma replacement distributes over concatenation, proved by induction on the first part |
| `Numbers.NumberFromText` | script.js:71 | text without a decimal digit converts to NaN: every radix prefix starts with 0 and a mantissa needs a digit |
| `Numbers.ParseNumDecimalText` | script.js:67-72 | the decimal text of any natural number parses back to that number |
| `Numbers.ParseNumCommaDigits` | script.js:69-71 | digits, a comma and digits parse as whole part plus fraction |
| `Numbers.ParseNumTwelveComma5` | script.js:64-73 | "12,5" parses as 12.5 |
| `Numbers.OrZero` | script.js:81 | "x or 0" is the value of x, or 0 when x is missing or zero (the two agree) |
| `Rheology.CalculateRheology` | script.js:75-116 | the mode flag is reported; simple-AV mode gives PV = YP = 0 and AV = the parsed field or 0; Fann mode gives PV = r600 − r300, PV + YP = r300 and 2·AV = r600, with missing readings taken as 0 |
| `Rheology.ShownFannValue` | script.js:104-109 | PV and YP are each shown only in Fann mode, and then exactly when not negative; what is shown is the value itself |
| `Rheology.ShownApparentViscosity` | script.js:85-112 | AV is shown in either mode exactly when it is positive; what is shown is AV |
| `Rheology.ShownRheology` | script.js:83-112 | simple mode shows no PV or YP, and shows AV iff AV > 0; Fann mode shows PV iff r600 ≥ r300, YP iff 2·r300 ≥ r600, and AV iff r600 > 0 |
| `Rheology.RheologyExamples` | script.js:89-115 | Fann readings 60/35 give PV 25, YP 10, AV 30; a simple AV of 30 gives 0/0/30 |
| `Geometry.InchesToCm` | script.js:134-136 | centimetres are inches × 2.54, and the sign is kept |
| `Geometry.SquareSign` | script.js:140 | a square is never negative and is zero only at zero |
| `Geometry.SquareOrder` | script.js:140 | squares compare as magnitudes do, in both directions |
| `Geometry.AreaFromDiameterInInches` | script.js:138-141 | the area of a circle of d in is π·1.6129·d² cm², that is π·(1.27·d)² |
| `Geometry.AreaFormula` | script.js:138-141 | an area is ≥ 0, > 0 iff d ≠ 0, and the same for −d |
| `Geometry.AreaOrder` | script.js:138-141 | one area is smaller than another iff its diameter is smaller in magnitude |
| `Geometry.ComputeAreas` | script.js:250-253 | annulus = casing − pipe-OD area; the circle areas are ≥ 0; the annulus is positive iff the pipe OD is smaller than the casing ID in magnitude |
| `Geometry.LitresPerMinuteToCm3PerSecond` | script.js:255-257 | the flow in cm³/s times 60 is the flow in L/min times 1000, and it is positive iff the flow in L/min is |
| `Geometry.Velocity` | script.js:259-260 | a velocity exists iff the area is positive; velocity × area × 100 gives back the flow in cm³/s; a positive flow gives a positive velocity |
| `Geometry.SlowerThroughLargerArea` | script.js:259-260 | for one positive flow, of two positive areas the larger one has the smaller velocity, and conversely |
| `Reynolds.Density` | script.js:273-275 | ρ = SG·1000 for a non-zero SG, else 1030; ρ is never 0; ρ > 0 unless a negative SG is entered |
| `Reynolds.SimpleViscosity` | script.js:282 | μ = AV/1000 when AV > 0, else 0.001, so μ > 0 always |
| `Reynolds.InchesToMeters` | script.js:283-285 | a diameter in metres exists iff the inch value is non-zero and known; it is inches × 0.0254 and keeps the sign |
| `Reynolds.HydraulicDiameter` | script.js:286-290 | defined iff both diameters are known, the casing is the larger and c + p ≠ 0; then it equals c − p > 0 |
| `Reynolds.HydraulicDiameterIsGap` | script.js:288-289 | (c² − p²)/(c + p) = c − p |
| `Reynolds.SimpleReynolds` | script.js:292-299 | defined iff velocity and diameter are known and ρ, μ > 0; then Re·μ = ρ·v·D |
| `Reynolds.SimpleReynoldsOrder` | script.js:292-295 | with positive ρ, D and μ, the displayed Re is positive and strictly increasing in the velocity |
| `Reynolds.ShearRate` | script.js:396 | γ̇ exists iff v is known and D > 0; then γ̇·D = 8v, and γ̇ > 0 iff v > 0 |
| `Reynolds.EffectiveViscosityOf` | script.js:393-411 | the Bingham branch is taken iff γ̇ > 0 and PV, YP are known, with (μ_eff − PV/1000)·γ̇ = YP·0.478802657; otherwise the AV fallback is taken iff AV > 0, with μ_eff·1000 = AV; otherwise μ_eff is missing |
| `Reynolds.TraceReynolds` | script.js:413-416 | the trace Re exists iff μ_eff is known and non-zero, v is known and D > 0; then Re·μ_eff = ρ·v·D |
| `Reynolds.TracePath` | script.js:388-416 | γ̇ exists iff v is known and D > 0; the Bingham branch is taken iff Fann mode shows non-negative PV and YP and γ̇ > 0; the fallback is taken only for a positive AV and is AV/1000; a trace Re needs γ̇ and satisfies Re·μ_eff = ρ·v·D |
| `Reynolds.SimpleModeFallsBack` | script.js:389-411 | in simple-AV mode the trace never takes the Bingham branch; it falls back iff AV > 0, to the displayed viscosity |
| `Reynolds.SimpleModeTraceAgrees` | script.js:413-416 | in simple-AV mode with AV > 0, ρ > 0 and D > 0, the trace Re equals the displayed Re |
| `Reynolds.FannModeBingham` | script.js:396-405 | in Fann mode with PV, YP ≥ 0, a positive velocity and diameter give the Bingham branch, and μ_eff ≥ PV/1000 |
| `Reynolds.FallbackExample` | script.js:396-416 | D = 0 with a simple AV of 30 gives no shear rate, the fallback μ_eff = 0.03, and no trace Re |
| `FlowEngine.ResolveDimensions` | script.js:209-220 | each typed-in diameter is used unless missing or zero; then the casing size or the nominal drill-pipe size stands in |
| `FlowEngine.NominalSizeFallback` | script.js:215-220 | with both drill-pipe fields unusable, pipe ID = pipe OD = the nominal size |
| `FlowEngine.ToolJointClash` | script.js:229 | the tool joint clashes iff its OD and the casing ID are both known and non-zero and the OD is the larger |
| `FlowEngine.ValidInputs` | script.js:236 | the inputs are valid iff the flow is known and positive and the three diameters are known and non-zero, whatever their sign |
| `FlowEngine.ToolJointWarningIndependent` | script.js:222-234 | the tool-joint warning is on iff TJ OD and casing ID are known, non-zero and TJ OD > casing ID; the flow rate does not affect it |
| `FlowEngine.ToolJointWarningExample` | script.js:222-240 | TJ 6.5 in inside a 6.0 in casing warns with no flow rate entered, and nothing is computed |
| `FlowEngine.GuardDecidesComputation` | script.js:236-248 | nothing is computed iff the flow is missing or ≤ 0 or a diameter is missing or zero; then the hole-cleaning warning is off |
| `FlowEngine.Compute` | script.js:250-299 | the trace exists iff Reynolds is shown; the rheology is the panel's; μ > 0; the pipe's D is its ID in metres and the annulus's, when defined, the radial gap (casing − OD) in metres |
| `FlowEngine.Run` | script.js:222-518 | the tool-joint warning is the clash test, whatever the guard says; a computation is made iff the guard passes, and it then has a positive pipe velocity; the hole-cleaning warning is raised only by a run that computed |
| `FlowEngine.CalculateVelocity` | script.js:208-521 | on the form's inputs: the tool-joint warning compares the parsed TJ OD with the resolved casing ID; a computation is made iff the parsed flow and resolved diameters pass the guard, and it then has a positive pipe velocity, the rheology of the viscosity fields, and a trace iff Reynolds is shown |
| `FlowEngine.PipeVelocityDefined` | script.js:250-259 | on valid inputs the pipe velocity exists, is positive, and carries the flow through the bore |
| `FlowEngine.AnnulusVelocityDefined` | script.js:250-260 | on valid inputs the annulus velocity exists iff the casing area exceeds the pipe-OD area, iff the casing ID is larger in magnitude than the pipe OD; it is then positive |
| `FlowEngine.AnnulusSlowerIffLarger` | script.js:259-260 | on valid inputs, the annulus velocity exists and is below the pipe velocity iff the annulus area exceeds the bore area (a degenerate annulus has no velocity) |
| `FlowEngine.HoleCleaningWarning` | script.js:511-518 | the hole-cleaning warning is on iff a run computed an annulus velocity below 1 m/s |
| `FlowEngine.HoleCleaningThresholdExamples` | script.js:512-517 | the threshold is strict: 0.95 m/s warns, 1.05 and 1.0 m/s do not |
| `FlowEngine.ReynoldsIndependentOfDisplay` | script.js:271-301 | showing Reynolds changes only whether the trace is built; velocities, warnings and Reynolds numbers are the same |
| `FlowEngine.SimpleModePipeTrace` | script.js:485-486 | in simple-AV mode with AV > 0, positive ρ and positive pipe ID, the pipe trace reports the displayed Re, and neither path is Bingham |
| `FlowEngine.ScenarioExample` | script.js:250-260 | 300 L/min through 3 in ID, 5 in OD, 8.5 in casing: 5000 cm³/s, v_pipe = 50/(14.5161π), v_ann = 50/(76.209525π) < v_pipe, and for π > 3 the hole-cleaning warning is on |

## Left out

- Everything the page does to the DOM is not modelled: texts, CSS classes, number formatting with `toFixed`, `toExponential` and `toLocaleString`, and the construction of the trace's HTML. The model returns the values the page would show, not the strings.
- `calculateRheology`'s display writes are not modelled as effects. The panel rule is kept as the `Shown…` functions, because the trace reads its PV, YP and AV back from that text.
- The one-decimal rounding of the panel is taken as exact when the trace reads the values back. In the code an AV of 0.04 cP shows as "0.0" and then counts as zero.
- IEEE 754 arithmetic is replaced by exact reals: rounding, overflow, infinities and NaN propagation. Where JavaScript produces a non-finite number, the model has "missing":
- `Reynolds.TraceReynolds`: a zero μ_eff (Fann mode with PV = YP = 0) gives a missing trace Re, where JavaScript divides by zero and gets an infinity.
- `Reynolds.HydraulicDiameter`: a pipe OD of exactly −(casing ID) gives a missing value, as JavaScript's 0/0 = NaN does.
- `Numbers.ParseNum`: "Infinity" and "-Infinity" parse as missing, where `Number` gives an infinity.
- `Number(string)` is modelled for decimal and `0x`/`0o`/`0b` text only. "Infinity", numeric separators and other exotic forms become missing.
- When the guard fails, `calculateVelocity` itself leaves the Reynolds displays and the trace as they were. The model reports no computation and says nothing about those stale displays. The rheology panel is not stale: the listeners that react to the viscosity and mode fields, and the first run on load, call `calculateRheology` before `calculateVelocity` (script.js:680, 689, 708, 743).
- The legacy `calculateVelocities` (script.js:167-206), with its 0.8 m/s threshold, is never called and is not modelled.
- State persistence (`saveState`/`loadState`), catalogue syncing from `<option>` data, the Reynolds panel animation timers, event wiring, the quick and stepper buttons, and navigation highlighting are browser I/O and UI plumbing.
- `tools/generate_favicons.py` is image file I/O.
- The `try`/`catch` around the Reynolds stage is not modelled, because nothing inside the modelled computation throws.
- The displayed Reynolds numbers are computed whether or not the panel is shown (the model keeps them). They are displayed, rounded, only when it is shown.

## Where the code and its description differ

- The guard rejects a zero or missing diameter but lets negative diameters through. Their areas are those of the positive diameters, and the model follows the code.
- A negative specific gravity is not replaced by the 1.03 default (only a missing or zero one is). The displayed Reynolds numbers are then missing because ρ ≤ 0. The trace does not check ρ and reports a negative Re.
- When the drill-pipe ID field is blank, the nominal (outer) size of the selected pipe is used as the inner diameter too.
- A missing Fann reading or apparent viscosity is taken as 0 (`parseNum(...) || 0`), not carried forward as missing.
