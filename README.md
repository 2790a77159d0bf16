# AUv3Support DSP core in Dafny

This project models the computational core of AUv3Support, a support library for
Audio Unit v3 effects. It covers the C++ DSP headers and a few Swift value helpers.

**DSP headers** (`DSPHeaders`), each with its own module:

- **Parameters.** `Parameters::Base` is a render-thread parameter with a pending
  slot and a linear ramp. `Parameters::Transformer` holds its in/out value maps.
  `RampingParameter` is a per-frame linear ramp onto a target.
- **`EventProcessor`.** The render loop. It slices a block of frames at the
  sample times of the render events. It applies the events in list order and,
  while a ramp is active, renders one frame at a time.
- **`Biquad`.** Coefficient ramp arithmetic, the four transform signal graphs
  with their noise-floor clamp, the `Filter`, and its snap-to-goal `Ramper`.
- **`DelayBuffer`.** A power-of-two ring buffer.
- **`LFO`.** The phase counters and the four waveforms.
- **`DSP`.** Unipolar/bipolar mappings, modulations, the parabolic sine and
  linear interpolation.
- **`BusBuffers`.** In-place additions into the channel buffers of a bus.
- **`ConstMath`.** The integer and exact parts: `abs`, `normalizedRadians`,
  `floor`, `ceil`, `is_even`, `ipow`, `mantissa` and `make_array`.

**Swift helpers:**

- `UserPresetsManager`: preset bookkeeping. This covers lookup, free-number
  allocation, and the create, update, rename and delete rules.
- `FourCharCode`: the parser and serialiser.
- `ParametricValue`: the clamping value type.
- `Comparable.clamped(to:)`.

## How the model is built

**Numbers.**

- Every `AUValue`/`float`/`double` is a Dafny `real`.
- Frame counts and durations are `nat`.
- Fixed-width unsigned arithmetic is written out where the source depends on
  it: the UInt32 `FourCharCode` shift, and the 64-bit `size_t` wrap and mask
  of the delay buffer.

**Pure and imperative parts.**

- Pure C++ and Swift functions are Dafny functions, proved against their
  contracts and against each other.
- Objects whose methods update fields are classes: `Base`, `RampingParameter`,
  `Ramper`, `Filter`, `DelayBuffer`, `LFO`, `BusBuffers`, `EventProcessor` and
  `UserPresetsManager`; the audio unit seen through `AUAudioUnitPresetsFacade`
  is `PresetsFacade`.
- Each class has a `Snapshot()` or `Contents()` view of its fields. Each method
  states its new state as a pure function of the old one, such as
  `Snapshot() == Step(old(Snapshot()))`. The lemmas about those functions (ramps
  end on target, the schedule covers the block, and so on) then hold for the
  methods.
- Loops in the source are `while` loops with invariants:
  - the render loop, `processEventsUntil` and `renderFrames`;
  - the parameter scans in `checkForParameterChanges` and `renderingStateChanged`;
  - `nextNumber`, `clear`, `make_array`, `addAll` and `addAlternating`.

**`EventProcessor` specifics.**

- The kernel callbacks are recorded in a trace field as `Call` values:
  - `Rendering(offset, count)` for `doRendering`;
  - `ParameterEvent(index, duration)` for `doParameterEvent`;
  - `MidiEvent(index)` for `doMIDIEvent`.
- A render event is `(time, kind, rampDuration, accepted)`. `accepted` is the
  answer the kernel's `doParameterEvent` gives for that event.
- The render loop is proved in two layers. First, `Schedule` gives what the
  loop does independently of ramping: render `count` frames at `offset`, or
  apply event `i`. Then `Expand` turns each schedule step into kernel calls and
  threads `rampRemaining_` through. `Render` is proved to produce exactly
  `Expand(Schedule(...))`.

**Lookups.** UserPresets lookups take a sequence and a predicate, and return an
`Option`.

## Model

| member | source | states |
|---|---|---|
| Transformer.Passthru | Sources/DSPHeaders/include/DSPHeaders/Parameters/Transformer.hpp:23 | the identity transform |
| Transformer.PercentageIn | Sources/DSPHeaders/include/DSPHeaders/Parameters/Transformer.hpp:31 | always in [0,1]; a percentage in [0,100] becomes its hundredth; below 0 gives 0, above 100 gives 1 |
| Transformer.PercentageOut | Sources/DSPHeaders/include/DSPHeaders/Parameters/Transformer.hpp:39 | a normalized value in [0,1] becomes a percentage in [0,100] |
| Transformer.PercentageRoundTrip | Sources/DSPHeaders/include/DSPHeaders/Parameters/Transformer.hpp:31-39 | out(in(x)) == x for every percentage x in [0,100] |
| Transformer.PercentageRoundTripInternal | Sources/DSPHeaders/include/DSPHeaders/Parameters/Transformer.hpp:31-39 | in(out(y)) == y for every normalized y in [0,1] |
| Transformer.BoolIn | Sources/DSPHeaders/include/DSPHeaders/Parameters/Transformer.hpp:47 | the result is 0 or 1, and it is 0 exactly when the input is below 0.5 |
| Transformer.Rounded | Sources/DSPHeaders/include/DSPHeaders/Parameters/Transformer.hpp:55 | an integer within 0.5 of the input, with halves rounded away from zero as `std::round` does |
| Transformer.RoundedIntegral | Sources/DSPHeaders/include/DSPHeaders/Parameters/Transformer.hpp:55 | integers are fixed points of rounding |
| Transformer.RoundedIdempotent | Sources/DSPHeaders/include/DSPHeaders/Parameters/Transformer.hpp:55 | rounding twice is rounding once |
| Comparable.Clamped | Sources/AUv3Support/Extensions/Comparble.swift:13 | the result lies in the range; an inside value is kept; below gives the lower bound, above gives the upper bound |
| Comparable.ClampedIdempotent | Sources/AUv3Support/Extensions/Comparble.swift:13 | clamping twice is clamping once |
| ParametricValue.Make | Sources/AUv3Support/Parameters/ParametricValue.swift:12-14 | `init` clamps into [0,1] and keeps values already there |
| ParametricValue.FromFloatLiteral | Sources/AUv3Support/Parameters/ParametricValue.swift:17-19 | the float-literal initialiser gives the same value as `init` |
| ParametricValue.ParametricValue.Squared | Sources/AUv3Support/Parameters/ParametricValue.swift:23 | never larger than the original value; 0 and 1 are fixed |
| ParametricValue.ParametricValue.Cubed | Sources/AUv3Support/Parameters/ParametricValue.swift:25 | never larger than the original value; 0 and 1 are fixed |
| ConstMath.MakeArray | Sources/DSPHeaders/include/DSPHeaders/ConstMath.hpp:82-87 | a new array of length N whose entry i is gen(i) |
| ConstMath.Abs | Sources/DSPHeaders/include/DSPHeaders/ConstMath.hpp:95-96 | non-negative, and either x or -x |
| ConstMath.AbsSymmetric | Sources/DSPHeaders/include/DSPHeaders/ConstMath.hpp:96 | abs(-x) == abs(x) |
| ConstMath.NormalizedRadians | Sources/DSPHeaders/include/DSPHeaders/ConstMath.hpp:113-118 | the result lies in (-pi, pi] and differs from theta by a whole number of turns |
| ConstMath.NormalizedRadiansInRange | Sources/DSPHeaders/include/DSPHeaders/ConstMath.hpp:113-118 | an angle already in (-pi, pi] is returned unchanged |
| ConstMath.StepLowers | Sources/DSPHeaders/include/DSPHeaders/ConstMath.hpp:117 | each recursive step brings theta closer to the principal range, so the recursion ends |
| ConstMath.Truncate | Sources/DSPHeaders/include/DSPHeaders/ConstMath.hpp:269 | `static_cast<long long>` truncates toward zero, taken as an unbounded integer (the cast width is under Left out) |
| ConstMath.TruncateFitsWidth | Sources/DSPHeaders/include/DSPHeaders/ConstMath.hpp:269 | for x strictly between -b and b the truncation lies strictly inside (-b, b), the range where a b-wide cast is defined and equals the model |
| ConstMath.TruncateWholeAndFloor | Sources/DSPHeaders/include/DSPHeaders/ConstMath.hpp:269 | truncation keeps a whole number, and for x >= 0 it is the floor, leaving a fraction in [0,1) |
| ConstMath.Floor | Sources/DSPHeaders/include/DSPHeaders/ConstMath.hpp:266-270 | floor(x) <= x < floor(x) + 1 |
| ConstMath.Ceil | Sources/DSPHeaders/include/DSPHeaders/ConstMath.hpp:279-283 | ceil(x) - 1 < x <= ceil(x) |
| ConstMath.Remainder | Sources/DSPHeaders/include/DSPHeaders/ConstMath.hpp:294 | C++ `%`, which truncates toward zero: the magnitude stays below the divisor, and a non-negative dividend gives the mathematical remainder |
| ConstMath.IsEven | Sources/DSPHeaders/include/DSPHeaders/ConstMath.hpp:291-295 | true exactly when x is divisible by 2, negative x included |
| ConstMath.IPow | Sources/DSPHeaders/include/DSPHeaders/ConstMath.hpp:303-313 | a^n for n >= 0 and 1/a^(-n) for negative n, whichever branch (shift, squaring, odd step) is taken |
| ConstMath.ShiftIsPower | Sources/DSPHeaders/include/DSPHeaders/ConstMath.hpp:310 | the `a == 2` shortcut `1 << n`, taken as an unbounded integer, equals 2^n (see `ConstMath.IPow` under Left out for the width) |
| ConstMath.ShiftFitsWidth | Sources/DSPHeaders/include/DSPHeaders/ConstMath.hpp:310 | `1 << n` stays inside a signed w-bit `Integer` exactly when n < w - 1, the range where the unbounded shift is the source's |
| ConstMath.PowerOfSquare | Sources/DSPHeaders/include/DSPHeaders/ConstMath.hpp:311-312 | (a*a)^m == a^(2m): the squaring recursion computes the power |
| ConstMath.PowerNonZero | Sources/DSPHeaders/include/DSPHeaders/ConstMath.hpp:307 | a power of a non-zero base is non-zero, so `1 / ipow(a, -n)` is defined |
| ConstMath.Mantissa | Sources/DSPHeaders/include/DSPHeaders/ConstMath.hpp:139-142 | for x > 0 the result lies in [1,10]; its value is pinned by `MantissaDecomposes` |
| ConstMath.ScaleBy10IsPower | Sources/DSPHeaders/include/DSPHeaders/ConstMath.hpp:164-167 | scaling by ten e times is multiplying by the reference power 10^e |
| ConstMath.MantissaTimesExponent | Sources/DSPHeaders/include/DSPHeaders/ConstMath.hpp:139-167 | `find_exponent(x, y)` counts the scalings `mantissa` makes: the mantissa scaled by 10^(exponent - y) is x again |
| ConstMath.MantissaDecomposes | Sources/DSPHeaders/include/DSPHeaders/ConstMath.hpp:203-207 | the split `log_breakup` relies on: x == mantissa(x) * 10^find_exponent(x, 0), with the mantissa in [1,10] |
| ConstMath.MantissaScaleUp | Sources/DSPHeaders/include/DSPHeaders/ConstMath.hpp:141 | multiplying a value below 1 by ten moves it closer to [1,10], so the recursion ends |
| ConstMath.MantissaScaleDown | Sources/DSPHeaders/include/DSPHeaders/ConstMath.hpp:141 | dividing a value above 10 by ten moves it closer to [1,10], so the recursion ends |
| DSP.UnipolarToBipolar | Sources/DSPHeaders/include/DSPHeaders/DSP.hpp:21 | maps [0,1] onto [-1,1], 0 to -1 and 1 to 1 |
| DSP.BipolarToUnipolar | Sources/DSPHeaders/include/DSPHeaders/DSP.hpp:30 | maps [-1,1] onto [0,1] and is a right inverse of unipolarToBipolar |
| DSP.UnipolarRoundTrip | Sources/DSPHeaders/include/DSPHeaders/DSP.hpp:21-30 | bipolarToUnipolar(unipolarToBipolar(v)) == v for every v |
| DSP.UnipolarModulation | Sources/DSPHeaders/include/DSPHeaders/DSP.hpp:41-43 | the result lies in [min,max] when min <= max; a modulator at or below 0 gives min, at or above 1 gives max |
| DSP.BipolarModulation | Sources/DSPHeaders/include/DSPHeaders/DSP.hpp:54-57 | the result lies in [min,max] when min <= max; -1 gives min, +1 gives max, 0 gives the midpoint |
| DSP.ParabolicSine | Sources/DSPHeaders/include/DSPHeaders/DSP.hpp:72-79 | parabolicSine(0) == 0 |
| DSP.ParabolicSineOdd | Sources/DSPHeaders/include/DSPHeaders/DSP.hpp:72-79 | the approximation is odd: f(-a) == -f(a) |
| DSP.ParabolicSineQuarterTurn | Sources/DSPHeaders/include/DSPHeaders/DSP.hpp:72-79 | f(pi/2) == 1 and f(-pi/2) == -1, as for the sine |
| DSP.ParabolicSineBounded | Sources/DSPHeaders/include/DSPHeaders/DSP.hpp:72-79 | on [-pi, pi] the value lies in [-1,1] and has the sign of the angle |
| DSP.Linear | Sources/DSPHeaders/include/DSPHeaders/DSP.hpp:91 | partial 0 gives x0, partial 1 gives x1, and partials in [0,1] stay between them |
| FourCharCode.EncodeScalar | Sources/AUv3Support/Extensions/FourCharCode.swift:21 | a character's UTF-8 encoding takes 1 to 4 bytes, and exactly one byte (its own code) when it is ASCII |
| FourCharCode.Utf8 | Sources/AUv3Support/Extensions/FourCharCode.swift:21 | `utf8.count` is at least the character count, and equal to it exactly when every character is ASCII |
| FourCharCode.ShiftIn | Sources/AUv3Support/Extensions/FourCharCode.swift:28 | one `reduce` step: a UInt32 shift left by 8 that drops the high byte, then the new byte added |
| FourCharCode.FromString | Sources/AUv3Support/Extensions/FourCharCode.swift:15-28 | a string that fails validation gives 0x3F3F3F3F; a valid one packs its four characters big-endian, first character in the high byte |
| FourCharCode.PackFour | Sources/AUv3Support/Extensions/FourCharCode.swift:28 | reducing four bytes from 0 gives the big-endian word of the bytes |
| FourCharCode.ValidBytes | Sources/AUv3Support/Extensions/FourCharCode.swift:20-28 | a valid string's UTF-8 bytes are its four character codes |
| FourCharCode.ValidBytesDirect | Sources/AUv3Support/Extensions/FourCharCode.swift:7-22 | four printable ASCII characters always pass validation, so the `utf8.count` guard never rejects them |
| FourCharCode.InvalidMatchesQuestionMarks | Sources/AUv3Support/Extensions/FourCharCode.swift:20-26 | every rejected string gives the same code as "????" |
| FourCharCode.BigEndianBytes | Sources/AUv3Support/Extensions/FourCharCode.swift:38-40 | the four bytes of `bigEndian`, whose big-endian word is the code itself |
| FourCharCode.DecodeUtf8 | Sources/AUv3Support/Extensions/FourCharCode.swift:40 | decoding never yields more characters than it was given bytes |
| FourCharCode.AsciiDecode | Sources/AUv3Support/Extensions/FourCharCode.swift:40 | bytes below 0x80 decode to one character each, with the same codes |
| FourCharCode.DigitsUnique | Sources/AUv3Support/Extensions/FourCharCode.swift:28-40 | a 32-bit word determines its four bytes, so packing loses nothing |
| FourCharCode.StringValueRoundTrip | Sources/AUv3Support/Extensions/FourCharCode.swift:28-43 | stringValue(FourCharCode(s)) == s for every valid s |
| FourCharCode.InvalidCodeString | Sources/AUv3Support/Extensions/FourCharCode.swift:26-43 | the fallback code 0x3F3F3F3F reads back as "????" |
| RampingParameter.SetTo | Sources/DSPHeaders/include/DSPHeaders/RampingParameter.hpp:39-48 | the reported value becomes the target at once; duration 0 sets the value with no ramp; a positive duration keeps the value and picks a step that covers the distance in exactly `duration` steps |
| RampingParameter.Step | Sources/DSPHeaders/include/DSPHeaders/RampingParameter.hpp:65-70 | an idle parameter is untouched; otherwise the countdown drops by one, and the value becomes the target on the last step or moves by one step before it; the reported value never changes |
| RampingParameter.Stop | Sources/DSPHeaders/include/DSPHeaders/RampingParameter.hpp:25-30 | the countdown becomes 0 and the value becomes what `get` reported, so a ramp snaps to its target; an idle parameter is untouched |
| RampingParameter.StepsAddStep | Sources/DSPHeaders/include/DSPHeaders/RampingParameter.hpp:65-70 | k frames before the end of a ramp, the value has moved by k steps |
| RampingParameter.RampEndsOnTarget | Sources/DSPHeaders/include/DSPHeaders/RampingParameter.hpp:39-70 | after set(t, d), the d-th frameValue lands exactly on t and ramping stops |
| RampingParameter.StepsSplit | Sources/DSPHeaders/include/DSPHeaders/RampingParameter.hpp:65-70 | a+b frame steps are a steps followed by b steps |
| RampingParameter.IdleStepsIdentity | Sources/DSPHeaders/include/DSPHeaders/RampingParameter.hpp:66-69 | frameValue on a parameter that is not ramping changes nothing, however often it is called |
| RampingParameter.RampingParameter.constructor | Sources/DSPHeaders/include/DSPHeaders/RampingParameter.hpp:15 | starts at the initial value with no ramp |
| RampingParameter.RampingParameter.StopRamping | Sources/DSPHeaders/include/DSPHeaders/RampingParameter.hpp:25-30 | the new state is Stop of the old |
| RampingParameter.RampingParameter.Set | Sources/DSPHeaders/include/DSPHeaders/RampingParameter.hpp:39-48 | the new state is SetTo of the old |
| RampingParameter.RampingParameter.Get | Sources/DSPHeaders/include/DSPHeaders/RampingParameter.hpp:56 | the reported value: the target while ramping, the value otherwise |
| RampingParameter.RampingParameter.FrameValue | Sources/DSPHeaders/include/DSPHeaders/RampingParameter.hpp:65-70 | the new state is Step of the old, and the new value is returned |
| Parameters.Advance | Sources/DSPHeaders/include/DSPHeaders/Parameters/Base.hpp:99-104 | advancing a running countdown lowers it by one and changes nothing else; `frameValue(false)` or an idle parameter changes nothing |
| Parameters.RampTo | Sources/DSPHeaders/include/DSPHeaders/Parameters/Base.hpp:125-131 | value and countdown take the target and duration; a real ramp keeps the per-frame output where it was, so it moves without a jump; without a ramp the delta is left alone |
| Parameters.PendingChange | Sources/DSPHeaders/include/DSPHeaders/Parameters/Base.hpp:79-86 | pending equal to value: false, nothing changes; otherwise a ramp to pending and the answer `canRamp_`; either way value and pending agree afterwards |
| Parameters.ImmediateChange | Sources/DSPHeaders/include/DSPHeaders/Parameters/Base.hpp:60-64 | value and pending both become the transformed value, and the countdown the duration |
| Parameters.SecondCheckIsQuiet | Sources/DSPHeaders/include/DSPHeaders/Parameters/Base.hpp:79-86 | a second checkForPendingChange straight after the first reports false and changes nothing |
| Parameters.AdvancesCount | Sources/DSPHeaders/include/DSPHeaders/Parameters/Base.hpp:99-104 | k advancing calls within the countdown lower it by exactly k and change nothing else |
| Parameters.RampIsLinear | Sources/DSPHeaders/include/DSPHeaders/Parameters/Base.hpp:99-131 | the k-th frame of a ramp from output o to target t over D frames is o + k(t - o)/D |
| Parameters.RampEndsOnTarget | Sources/DSPHeaders/include/DSPHeaders/Parameters/Base.hpp:35-131 | after exactly D advancing calls the output is the target and the parameter is no longer ramping |
| Parameters.NoRampNoDelta | Sources/DSPHeaders/include/DSPHeaders/Parameters/Base.hpp:126-142 | a parameter that cannot ramp keeps a zero delta, so every frame value is its value |
| Parameters.AdvancesPastEnd | Sources/DSPHeaders/include/DSPHeaders/Parameters/Base.hpp:99-104 | once the countdown is 0, further calls change nothing |
| Parameters.AdvancesSplit | Sources/DSPHeaders/include/DSPHeaders/Parameters/Base.hpp:99-104 | a+b frame calls are a calls followed by b calls |
| Parameters.Base.constructor | Sources/DSPHeaders/include/DSPHeaders/Parameters/Base.hpp:116-121 | value and pending start at the transformed initial value, with no ramp and a zero delta |
| Parameters.Base.StopRamping | Sources/DSPHeaders/include/DSPHeaders/Parameters/Base.hpp:32 | only the countdown changes, to 0, so the output becomes the value |
| Parameters.Base.SetPending | Sources/DSPHeaders/include/DSPHeaders/Parameters/Base.hpp:43-45 | only pending changes, to the transformed value |
| Parameters.Base.SetImmediate | Sources/DSPHeaders/include/DSPHeaders/Parameters/Base.hpp:60-64 | the new state is ImmediateChange of the old, so pending and finalValue both equal transformIn(v) |
| Parameters.Base.CheckForPendingChange | Sources/DSPHeaders/include/DSPHeaders/Parameters/Base.hpp:79-86 | answer and new state are PendingChange of the old state |
| Parameters.Base.FrameValue | Sources/DSPHeaders/include/DSPHeaders/Parameters/Base.hpp:99-104 | the new state is Advance of the old, and the new output is returned |
| Parameters.Base.StartRamp | Sources/DSPHeaders/include/DSPHeaders/Parameters/Base.hpp:125-131 | the new state is RampTo of the old |
| Biquad.RampFactor | Sources/DSPHeaders/include/DSPHeaders/Biquad.hpp:191-199 | the element-wise change per sample that reaches the goal |
| Biquad.Add | Sources/DSPHeaders/include/DSPHeaders/Biquad.hpp:206-213 | adding the zero change keeps the coefficients, and adding to zero coefficients gives the change; its effect over many additions is `Biquad.AddTimesScales` |
| Biquad.AddTimesScales | Sources/DSPHeaders/include/DSPHeaders/Biquad.hpp:206-213 | n applications of `+=` add n times the change to every coefficient |
| Biquad.RampFactorReachesGoal | Sources/DSPHeaders/include/DSPHeaders/Biquad.hpp:191-213 | adding rampFactor(goal, n) n times lands exactly on the goal |
| Biquad.ForceMinToZero | Sources/DSPHeaders/include/DSPHeaders/Biquad.hpp:256-259 | returns 0 exactly when the magnitude is at most 2e-10 and v itself otherwise, so the value changes exactly when 0 < v magnitude <= 2e-10 |
| Biquad.StorageComponent | Sources/DSPHeaders/include/DSPHeaders/Biquad.hpp:295-392 | 0 for Canonical and DirectTranspose, the first register `x_z1` for CanonicalTranspose; the Direct sum is tied to the outputs by the transform contracts |
| Biquad.DirectTransform | Sources/DSPHeaders/include/DSPHeaders/Biquad.hpp:276-286 | clamped output a0*x plus the storage component; the registers shift input into x and output into y |
| Biquad.CanonicalTransform | Sources/DSPHeaders/include/DSPHeaders/Biquad.hpp:314-322 | output from theta and the x registers; theta goes into x_z1, and y_z1, y_z2 stay as they were |
| Biquad.DirectTransposeTransform | Sources/DSPHeaders/include/DSPHeaders/Biquad.hpp:344-354 | clamped output a0*theta + x_z1 |
| Biquad.CanonicalTransposeTransform | Sources/DSPHeaders/include/DSPHeaders/Biquad.hpp:376-382 | clamped output a0*x plus the storage component, which is x_z1; the y registers stay as they were |
| Biquad.Run | Sources/DSPHeaders/include/DSPHeaders/Biquad.hpp:460-463 | a filter run over n inputs yields n outputs |
| Biquad.TransformSample | Sources/DSPHeaders/include/DSPHeaders/Biquad.hpp:276-392 | dispatches to the chosen graph: Direct shifts its registers and keeps its clamped output in `y_z1`, Canonical stores theta in `x_z1`, Canonical and CanonicalTranspose leave `y_z1`/`y_z2` alone, and Direct and CanonicalTranspose clamp input term plus storage component |
| Biquad.DirectCanonicalTransposeStep | Sources/DSPHeaders/include/DSPHeaders/Biquad.hpp:276-382 | from corresponding registers, Direct and CanonicalTranspose give the same sample, and the registers correspond again |
| Biquad.DirectEquivalentToCanonicalTranspose | Sources/DSPHeaders/include/DSPHeaders/Biquad.hpp:276-382 | from corresponding registers, the two graphs produce the same output signal for every input signal |
| Biquad.CanonicalDirectTransposeStep | Sources/DSPHeaders/include/DSPHeaders/Biquad.hpp:314-354 | from corresponding registers, Canonical and DirectTranspose give the same sample, and the registers correspond again |
| Biquad.CanonicalEquivalentToDirectTranspose | Sources/DSPHeaders/include/DSPHeaders/Biquad.hpp:314-354 | from corresponding registers, the two graphs produce the same output signal for every input signal |
| Biquad.ResetFiltersAgree | Sources/DSPHeaders/include/DSPHeaders/Biquad.hpp:276-392 | after a reset (all-zero state), Direct matches CanonicalTranspose and Canonical matches DirectTranspose on every input signal |
| Biquad.DirectCanonicalSums | Sources/DSPHeaders/include/DSPHeaders/Biquad.hpp:276-322 | on corresponding registers the direct and canonical output sums are equal |
| Biquad.DirectCanonicalStep | Sources/DSPHeaders/include/DSPHeaders/Biquad.hpp:276-322 | one sample the direct form does not clamp: the same output from Direct and Canonical, and the registers correspond again |
| Biquad.DirectEquivalentToCanonicalUnclamped | Sources/DSPHeaders/include/DSPHeaders/Biquad.hpp:276-322 | from corresponding registers, Direct and Canonical give the same output signal on every run where the direct form never clamps |
| Biquad.AllFormsAgreeUnclamped | Sources/DSPHeaders/include/DSPHeaders/Biquad.hpp:256-392 | after a reset, all four graphs give the same output signal on every run where the direct form never clamps |
| Biquad.ClampSeparatesDirectFromCanonical | Sources/DSPHeaders/include/DSPHeaders/Biquad.hpp:256-322 | a concrete run on which the clamp makes Direct and Canonical differ: 0, 0, 0 against 0, 0, 4e-10 |
| Biquad.RamperStart | Sources/DSPHeaders/include/DSPHeaders/Biquad.hpp:495-504 | duration 0 replaces only the coefficients; otherwise goal and countdown are set and the change covers the distance in exactly `duration` steps |
| Biquad.RamperReset | Sources/DSPHeaders/include/DSPHeaders/Biquad.hpp:533-539 | the countdown becomes 0 and a running ramp snaps to its goal |
| Biquad.RamperNext | Sources/DSPHeaders/include/DSPHeaders/Biquad.hpp:546-561 | the returned coefficients are the stored ones; idle changes nothing; the last step snaps to the goal; earlier steps add the change and count down |
| Biquad.RamperStepsAdd | Sources/DSPHeaders/include/DSPHeaders/Biquad.hpp:546-561 | k steps before the end of a ramp, the change has been added k times |
| Biquad.RamperStepsIdle | Sources/DSPHeaders/include/DSPHeaders/Biquad.hpp:548-550 | an idle ramper hands out the same coefficients forever |
| Biquad.RamperStepsSplit | Sources/DSPHeaders/include/DSPHeaders/Biquad.hpp:546-561 | a+b steps are a steps followed by b steps |
| Biquad.RampEndsOnGoal | Sources/DSPHeaders/include/DSPHeaders/Biquad.hpp:495-561 | after start(goal, d), step k < d is k changes of rampFactor on, and from step d on the coefficients are exactly the goal with no ramp |
| Biquad.ImmediateStartKeepsRamp | Sources/DSPHeaders/include/DSPHeaders/Biquad.hpp:495-561 | start(c, 0) during a ramp keeps the countdown, so the next step moves on from c towards the old goal |
| Biquad.Ramper.constructor | Sources/DSPHeaders/include/DSPHeaders/Biquad.hpp:485 | holds the coefficients, with no ramp and zero goal and change |
| Biquad.Ramper.Start | Sources/DSPHeaders/include/DSPHeaders/Biquad.hpp:495-504 | the new state is RamperStart of the old |
| Biquad.Ramper.Reset | Sources/DSPHeaders/include/DSPHeaders/Biquad.hpp:533-539 | the new state is RamperReset of the old |
| Biquad.Ramper.Current | Sources/DSPHeaders/include/DSPHeaders/Biquad.hpp:546-561 | result and new state are RamperNext of the old |
| Biquad.Filter.constructor | Sources/DSPHeaders/include/DSPHeaders/Biquad.hpp:414 | zero state and a ramper holding the coefficients |
| Biquad.Filter.SetCoefficients | Sources/DSPHeaders/include/DSPHeaders/Biquad.hpp:429-432 | starts the ramper towards the new coefficients |
| Biquad.Filter.Reset | Sources/DSPHeaders/include/DSPHeaders/Biquad.hpp:448-452 | zeroes the state and snaps any ramp to its goal |
| Biquad.Filter.Transform | Sources/DSPHeaders/include/DSPHeaders/Biquad.hpp:460-463 | one ramper step, then one sample through the graph with those coefficients |
| Biquad.Filter.GainValue | Sources/DSPHeaders/include/DSPHeaders/Biquad.hpp:468 | a0 of the ramper's next coefficients, so the ramp advances |
| Biquad.Filter.Storage | Sources/DSPHeaders/include/DSPHeaders/Biquad.hpp:473 | the graph's storage component under the next coefficients, so the ramp advances |
| DelayBuffer.Pow2 | Sources/DSPHeaders/include/DSPHeaders/DelayBuffer.hpp:85 | powers of two are positive |
| DelayBuffer.MaskIsMod | Sources/DSPHeaders/include/DSPHeaders/DelayBuffer.hpp:51-68 | masking with 2^k - 1 is reduction modulo 2^k |
| DelayBuffer.SmallestPowerOf2For | Sources/DSPHeaders/include/DSPHeaders/DelayBuffer.hpp:84-86 | the buffer size is a power of two, at least the requested size and at least 1, and the smallest such power |
| DelayBuffer.WriteSeq | Sources/DSPHeaders/include/DSPHeaders/DelayBuffer.hpp:49-52 | a write keeps the length and the write position in range |
| DelayBuffer.Slot | Sources/DSPHeaders/include/DSPHeaders/DelayBuffer.hpp:68 | the slot `readFromOffset` reads is inside the buffer |
| DelayBuffer.SlotAfterWrite | Sources/DSPHeaders/include/DSPHeaders/DelayBuffer.hpp:49-68 | after one write, offset k reads the slot offset k-1 read before, and that slot is not the one written |
| DelayBuffer.ReadsBackHistory | Sources/DSPHeaders/include/DSPHeaders/DelayBuffer.hpp:49-68 | after any writes, readFromOffset(k) is the value written k+1 writes ago, for k below the size |
| DelayBuffer.DelayBuffer.constructor | Sources/DSPHeaders/include/DSPHeaders/DelayBuffer.hpp:35-37 | size smallestPowerOf2For(sizeInSamples), every slot 0, write position 0, mask one less than the size |
| DelayBuffer.DelayBuffer.Clear | Sources/DSPHeaders/include/DSPHeaders/DelayBuffer.hpp:42 | every slot becomes 0 and the write position stays |
| DelayBuffer.DelayBuffer.MaskReduces | Sources/DSPHeaders/include/DSPHeaders/DelayBuffer.hpp:36-51 | the stored wrap mask reduces any index modulo the size |
| DelayBuffer.DelayBuffer.Write | Sources/DSPHeaders/include/DSPHeaders/DelayBuffer.hpp:49-52 | the value goes into the slot at the write position, no other slot changes, and the position advances modulo the size |
| DelayBuffer.DelayBuffer.ReadFromOffset | Sources/DSPHeaders/include/DSPHeaders/DelayBuffer.hpp:68 | the size_t wrap of `writePos_ - 1 - offset` and the mask pick the slot offset+1 behind the write position |
| DelayBuffer.DelayBuffer.Read | Sources/DSPHeaders/include/DSPHeaders/DelayBuffer.hpp:76-103 | with linear interpolation, a whole delay reads exactly readFromOffset(delay), and a non-negative fractional delay lies between the samples at its whole part and the next offset |
| LFO.WrappedModuloCounter | Sources/DSPHeaders/include/DSPHeaders/LFO.hpp:138-142 | subtracts 1 when rising past 1, adds 1 when falling past 0, and otherwise returns the counter |
| LFO.IncrementModuloCounter | Sources/DSPHeaders/include/DSPHeaders/LFO.hpp:144 | the stepped counter moves by the increment, give or take one whole period, and a zero increment leaves it; its range is `LFO.RisingCounterStaysInPeriod`/`FallingCounterStaysInPeriod` |
| LFO.RisingCounterStaysInPeriod | Sources/DSPHeaders/include/DSPHeaders/LFO.hpp:138-144 | with 0 < inc < 1, a counter in [0,1) stays in [0,1), moved by inc or by inc - 1 |
| LFO.FallingCounterStaysInPeriod | Sources/DSPHeaders/include/DSPHeaders/LFO.hpp:138-144 | with -1 < inc < 0, a counter in (0,1] stays in (0,1] |
| LFO.StillCounter | Sources/DSPHeaders/include/DSPHeaders/LFO.hpp:138-144 | a zero increment leaves the counter as it is |
| LFO.SineValue | Sources/DSPHeaders/include/DSPHeaders/LFO.hpp:146 | over one period the sine lies in [-1,1], non-negative in the first half and non-positive in the second |
| LFO.SawtoothValue | Sources/DSPHeaders/include/DSPHeaders/LFO.hpp:147 | sawtooth(c) == 2c - 1 |
| LFO.TriangleValue | Sources/DSPHeaders/include/DSPHeaders/LFO.hpp:148-150 | 1 - 4c up to the middle and 4c - 3 after it, so it stays in [-1,1] over one period |
| LFO.TriangleSymmetric | Sources/DSPHeaders/include/DSPHeaders/LFO.hpp:148-150 | the triangle is symmetric about the middle of the period |
| LFO.SquareValue | Sources/DSPHeaders/include/DSPHeaders/LFO.hpp:151 | 1 exactly when c >= 0.5 and -1 exactly when c < 0.5 |
| LFO.Apply | Sources/DSPHeaders/include/DSPHeaders/LFO.hpp:126-151 | every value generator stays in [-1,1] over one period |
| LFO.WaveformGenerator | Sources/DSPHeaders/include/DSPHeaders/LFO.hpp:128-136 | the generator chosen for a waveform is mapped back to that waveform by `waveform()` |
| LFO.GeneratorWaveform | Sources/DSPHeaders/include/DSPHeaders/LFO.hpp:112-118 | each of the four generators names exactly its own waveform |
| LFO.WaveformRoundTrip | Sources/DSPHeaders/include/DSPHeaders/LFO.hpp:112-136 | waveform() recovers the waveform from its generator, and different waveforms get different generators |
| LFO.GeneratorComputes | Sources/DSPHeaders/include/DSPHeaders/LFO.hpp:128-151 | each waveform's generator computes that waveform's value function |
| LFO.IncrementKeepsValueBounded | Sources/DSPHeaders/include/DSPHeaders/LFO.hpp:90-106 | after a rising increment smaller than one period, the value stays in [-1,1] |
| LFO.LFO.constructor | Sources/DSPHeaders/include/DSPHeaders/LFO.hpp:36-41 | the waveform is set; the increment is frequency / sample rate with no ramp; reset puts the counter at 0 when rising and at 1 otherwise |
| LFO.LFO.SetFrequency | Sources/DSPHeaders/include/DSPHeaders/LFO.hpp:81-109 | the increment is set to frequency over sample rate with the ramp duration, and frequency() reports the new frequency at once |
| LFO.LFO.SetSampleRate | Sources/DSPHeaders/include/DSPHeaders/LFO.hpp:59-66 | the sample rate changes, the frequency stays the same, and any ramp ends |
| LFO.LFO.SetWaveform | Sources/DSPHeaders/include/DSPHeaders/LFO.hpp:73-118 | waveform() afterwards returns the waveform set; the counters are unchanged |
| LFO.LFO.Reset | Sources/DSPHeaders/include/DSPHeaders/LFO.hpp:87 | the counter becomes 0 when the increment is positive and 1 otherwise |
| LFO.LFO.Increment | Sources/DSPHeaders/include/DSPHeaders/LFO.hpp:103-106 | the increment takes one frame step; the counter advances by the new increment and wraps; the quadrature counter is a quarter period past it |
| LFO.LFO.StopRamping | Sources/DSPHeaders/include/DSPHeaders/LFO.hpp:123 | a frequency ramp snaps to its target |
| BusBuffers.BusBuffers.constructor | Sources/DSPHeaders/include/DSPHeaders/BusBuffers.hpp:22 | holds the given channel buffers |
| BusBuffers.BusBuffers.AddMono | Sources/DSPHeaders/include/DSPHeaders/BusBuffers.hpp:28-32 | the sample is added to channel 0 at the frame, and every other sample of that channel is unchanged |
| BusBuffers.BusBuffers.AddStereo | Sources/DSPHeaders/include/DSPHeaders/BusBuffers.hpp:34-39 | left is added to channel 0 and right to channel 1 at the frame, and no other sample of either changes |
| BusBuffers.BusBuffers.AddAll | Sources/DSPHeaders/include/DSPHeaders/BusBuffers.hpp:41-46 | the sample is added to every channel at the frame, and every other frame is unchanged |
| BusBuffers.BusBuffers.AddAlternating | Sources/DSPHeaders/include/DSPHeaders/BusBuffers.hpp:48-54 | even channels are set (not added to) to the even sample and odd channels to the odd sample at the frame; other frames are unchanged |
| BusBuffers.AlternatingSample | Sources/DSPHeaders/include/DSPHeaders/BusBuffers.hpp:52 | even channel indices get the even sample and odd ones the odd sample |
| EventProcessor.FirstAfter | Sources/DSPHeaders/include/DSPHeaders/EventProcessor.hpp:254 | the index the event cursor stops at lies between the start and the end of the list |
| EventProcessor.FirstAfterFacts | Sources/DSPHeaders/include/DSPHeaders/EventProcessor.hpp:254-284 | every skipped event is due by `now`, and the event returned (if any) is later |
| EventProcessor.Schedule | Sources/DSPHeaders/include/DSPHeaders/EventProcessor.hpp:225-249 | the render loop's pieces and event applications; every event it applies lies between the cursor and the end of the list. Its coverage and order are `ScheduleCoversBlock` and `ScheduleAppliesAll` |
| EventProcessor.ScheduleUnfold | Sources/DSPHeaders/include/DSPHeaders/EventProcessor.hpp:231-248 | one loop round: render up to the next event time (if later than now), apply every event due by then, and continue from there |
| EventProcessor.ScheduleCoversBlock | Sources/DSPHeaders/include/DSPHeaders/EventProcessor.hpp:225-249 | the rendered segments add up to the frame count, and each segment's offset is the frames rendered before it |
| EventProcessor.ScheduleAppliesAll | Sources/DSPHeaders/include/DSPHeaders/EventProcessor.hpp:225-285 | a non-empty block applies every event of the list exactly once, in list order |
| EventProcessor.FramesCallsShape | Sources/DSPHeaders/include/DSPHeaders/EventProcessor.hpp:287-326 | bypass makes no kernel call; otherwise the calls render exactly the frames asked for: min(rampRemaining, n) one-frame calls at the segment offset, then one call for the rest when any is left |
| EventProcessor.FramesCalls | Sources/DSPHeaders/include/DSPHeaders/EventProcessor.hpp:287-326 | `renderFrames`' kernel calls: none in bypass, and otherwise calls at the piece's offset, each for at least one frame; their counts are `FramesCallsShape` |
| EventProcessor.ApplyEvent | Sources/DSPHeaders/include/DSPHeaders/EventProcessor.hpp:254-281 | parameter events go to the kernel, and an accepted one raises the countdown to at least its ramp duration (a plain parameter event uses the processor's); a rejected one leaves it; MIDI and SysEx events go to the MIDI handler; other events are ignored |
| EventProcessor.StepFacts | Sources/DSPHeaders/include/DSPHeaders/EventProcessor.hpp:254-326 | a schedule step renders exactly its own frames, and nothing under bypass |
| EventProcessor.Expand | Sources/DSPHeaders/include/DSPHeaders/EventProcessor.hpp:225-326 | the kernel calls a schedule makes and the countdown after it; rendering never lowers the countdown (EventProcessor.hpp:319 as written) |
| EventProcessor.ExpandFacts | Sources/DSPHeaders/include/DSPHeaders/EventProcessor.hpp:225-326 | the kernel calls of a schedule render its frame total, and render nothing under bypass |
| EventProcessor.ExpandAppend | Sources/DSPHeaders/include/DSPHeaders/EventProcessor.hpp:225-249 | the calls for two schedules one after the other are the calls for the first, then those for the second from the countdown it leaves |
| EventProcessor.RenderEffectIsExpand | Sources/DSPHeaders/include/DSPHeaders/EventProcessor.hpp:225-249 | the loop's round-by-round effect is exactly the schedule turned into kernel calls |
| EventProcessor.RenderEffect | Sources/DSPHeaders/include/DSPHeaders/EventProcessor.hpp:225-249 | the loop's calls round by round, with the countdown never lowered; `RenderEffectIsExpand` equates it with `Expand` of `Schedule` |
| EventProcessor.RaisedRamp | Sources/DSPHeaders/include/DSPHeaders/EventProcessor.hpp:210-211 | a change raises the countdown to at least the ramp duration; no change leaves it |
| EventProcessor.EventProcessor.constructor | Sources/DSPHeaders/include/DSPHeaders/EventProcessor.hpp:42 | no parameters, no ramp, not bypassed, not rendering, empty trace |
| EventProcessor.EventProcessor.SetBypass | Sources/DSPHeaders/include/DSPHeaders/EventProcessor.hpp:49-51 | only the bypass flag changes |
| EventProcessor.EventProcessor.RegisterParameters | Sources/DSPHeaders/include/DSPHeaders/EventProcessor.hpp:192-194 | only the parameter list changes |
| EventProcessor.EventProcessor.RenderingStateChanged | Sources/DSPHeaders/include/DSPHeaders/EventProcessor.hpp:216-221 | every registered parameter stops ramping, and the processor's countdown becomes 0 |
| EventProcessor.EventProcessor.SetRendering | Sources/DSPHeaders/include/DSPHeaders/EventProcessor.hpp:186-190 | the same state changes nothing; a new state stops every parameter ramp and zeroes the countdown |
| EventProcessor.EventProcessor.SetRenderingFormat | Sources/DSPHeaders/include/DSPHeaders/EventProcessor.hpp:69-102 | records the ramp duration and the frame capacity, then switches rendering on |
| EventProcessor.EventProcessor.DeallocateRenderResources | Sources/DSPHeaders/include/DSPHeaders/EventProcessor.hpp:110-120 | switches rendering off |
| EventProcessor.EventProcessor.CheckAllEntries | Sources/DSPHeaders/include/DSPHeaders/EventProcessor.hpp:208-210 | every parameter's pending change is checked (each new state is PendingChange of its old one), and the answer is whether any of them reported a change |
| EventProcessor.EventProcessor.CheckForParameterChanges | Sources/DSPHeaders/include/DSPHeaders/EventProcessor.hpp:206-212 | every parameter checks its pending change, and the countdown is raised to the ramp duration only if one of them changed |
| EventProcessor.EventProcessor.RenderFrames | Sources/DSPHeaders/include/DSPHeaders/EventProcessor.hpp:287-326 | appends the calls FramesCallsShape describes, and leaves the countdown as it was |
| EventProcessor.EventProcessor.HandleEvent | Sources/DSPHeaders/include/DSPHeaders/EventProcessor.hpp:255-281 | appends the event's kernel calls and sets the countdown as ApplyEvent says |
| EventProcessor.EventProcessor.ProcessEventsUntil | Sources/DSPHeaders/include/DSPHeaders/EventProcessor.hpp:251-285 | applies exactly the events from the cursor that are due by `now`, in order, and returns the first later one |
| EventProcessor.EventProcessor.RenderSegment | Sources/DSPHeaders/include/DSPHeaders/EventProcessor.hpp:239-247 | one round of the render loop keeps the loop invariant and moves the event cursor forward |
| EventProcessor.EventProcessor.RenderTail | Sources/DSPHeaders/include/DSPHeaders/EventProcessor.hpp:234-237 | with no events left, the rest of the block is rendered and the loop's effect is complete |
| EventProcessor.EventProcessor.RenderRounds | Sources/DSPHeaders/include/DSPHeaders/EventProcessor.hpp:231-248 | the loop as a whole produces the effect its invariant was started with |
| EventProcessor.EventProcessor.Render | Sources/DSPHeaders/include/DSPHeaders/EventProcessor.hpp:225-249 | the trace grows by exactly the kernel calls of the block's schedule, and the countdown ends where they leave it |
| EventProcessor.EventProcessor.ProcessAndRender | Sources/DSPHeaders/include/DSPHeaders/EventProcessor.hpp:133-177 | more frames than the capacity give TooManyFramesToProcess and touch nothing; a failed input pull returns its status and touches nothing; otherwise parameter changes are checked, the block is rendered as its schedule says, and the result is noErr |
| UserPresets.FirstIndex | Sources/AUv3Support/Host/UserPresetsManager.swift:76-89 | `firstIndex(where:)`: the first index that satisfies the predicate, or none when no element does |
| UserPresets.FindByName | Sources/AUv3Support/Host/UserPresetsManager.swift:74-79 | finds a preset exactly when one has that exact name, and returns the first such |
| UserPresets.FindByNumber | Sources/AUv3Support/Host/UserPresetsManager.swift:87-92 | finds a preset exactly when one has that number, and returns the first such |
| UserPresets.Validating | Sources/AUv3Support/Host/UserPresetsManager.swift:205-207 | an element exactly when the index is in [startIndex, endIndex), and then the element at that index |
| UserPresets.NonNil | Sources/AUv3Support/Host/UserPresetsManager.swift:30 | missing factory presets read as the empty list |
| UserPresets.SortByNumber | Sources/AUv3Support/Host/UserPresetsManager.swift:49 | a permutation sorted by descending number, strictly when the numbers are distinct |
| UserPresets.SortKeepsMembers | Sources/AUv3Support/Host/UserPresetsManager.swift:49 | ordering by number keeps exactly the same presets |
| UserPresets.SavedPresets | Tests/AUv3SupportTests/Hosts/UserPresetsManagerTests.swift:21-27 | saving replaces the preset with the same number in place, or appends a new one |
| UserPresets.RemovedPresets | Tests/AUv3SupportTests/Hosts/UserPresetsManagerTests.swift:29-31 | deleting removes every preset with that number and keeps the others; with no such preset the list is unchanged |
| UserPresets.RemovedPresetsOne | Tests/AUv3SupportTests/Hosts/UserPresetsManagerTests.swift:29-31 | a single preset is kept exactly when its number differs |
| UserPresets.RemovedPresetsAppend | Tests/AUv3SupportTests/Hosts/UserPresetsManagerTests.swift:29-31 | deleting from a + b keeps what deleting from a keeps, followed by what deleting from b keeps, so the kept presets stay in their order |
| UserPresets.SaveThenFind | Tests/AUv3SupportTests/Hosts/UserPresetsManagerTests.swift:21-27 | after saving a preset, looking up its number finds it |
| UserPresets.SaveKeepsNumbering | Tests/AUv3SupportTests/Hosts/UserPresetsManagerTests.swift:21-27 | saving a negatively numbered preset keeps the user numbers negative and distinct |
| UserPresets.RemoveKeepsNumbering | Tests/AUv3SupportTests/Hosts/UserPresetsManagerTests.swift:29-31 | deleting keeps the user numbers negative and distinct |
| UserPresets.NextNumberGap | Sources/AUv3Support/Host/UserPresetsManager.swift:186-197 | where the descending scan stops, the number is unused and every number between it and 0 is taken |
| UserPresets.PresetsFacade.constructor | Sources/AUv3Support/Host/UserPresetsManager.swift:12-18 | the given factory and user presets, with no current preset |
| UserPresets.PresetsFacade.SaveUserPreset | Tests/AUv3SupportTests/Hosts/UserPresetsManagerTests.swift:21-27 | the user presets become SavedPresets of the old ones |
| UserPresets.PresetsFacade.DeleteUserPreset | Tests/AUv3SupportTests/Hosts/UserPresetsManagerTests.swift:29-31 | the user presets become RemovedPresets of the old ones |
| UserPresets.UserPresetsManager.constructor | Sources/AUv3Support/Host/UserPresetsManager.swift:63-66 | manages the given audio unit |
| UserPresets.UserPresetsManager.ClearCurrentPreset | Sources/AUv3Support/Host/UserPresetsManager.swift:95-97 | no current preset, and the preset lists unchanged |
| UserPresets.UserPresetsManager.MakeCurrentPresetNamed | Sources/AUv3Support/Host/UserPresetsManager.swift:104-108 | the current preset becomes the first user preset with that name, or none |
| UserPresets.UserPresetsManager.MakeCurrentPresetNumbered | Sources/AUv3Support/Host/UserPresetsManager.swift:116-124 | a non-negative number picks that factory preset, or none when out of range; a negative one the user preset with that number |
| UserPresets.UserPresetsManager.NextNumber | Sources/AUv3Support/Host/UserPresetsManager.swift:186-197 | -1 with no presets; with distinct negative user numbers, a negative number not in use with every number between it and 0 taken |
| UserPresets.UserPresetsManager.Create | Sources/AUv3Support/Host/UserPresetsManager.swift:133-139 | a preset with the name and nextNumber is saved and made current; with proper numbering its number is unused and negative with every number between it and 0 taken (the smallest free one), and the preset is appended |
| UserPresets.UserPresetsManager.Update | Sources/AUv3Support/Host/UserPresetsManager.swift:147-154 | a factory preset changes nothing; a user preset is saved and made current; numbering stays proper |
| UserPresets.UserPresetsManager.RenameCurrent | Sources/AUv3Support/Host/UserPresetsManager.swift:162-170 | no current or a factory current changes nothing; otherwise the preset is deleted and saved again with the same number and the new name, and becomes current |
| UserPresets.UserPresetsManager.DeleteCurrent | Sources/AUv3Support/Host/UserPresetsManager.swift:177-183 | a current user preset is removed and there is no current preset afterwards; a factory or missing current changes nothing |

Plain accessors have no row. They are reads of one field or one transform:

- `getPending`, `getImmediate`, `finalValue`, `isRamping`;
- `frequency`, `waveform`, `value`, `quadPhaseValue`;
- `isValid`, `isMono`, `isStereo`, `size`;
- `presets`, `presetsOrderedByNumber`, `find`.

These appear in the contracts of the members above: for example
`SetImmediate` states `FinalValue()`, `LFO.SetWaveform` states `Waveform()`,
and `AddMono` requires `IsMono()`.

## Notes on the code as written

These are modelled as the code does them:

- **The render countdown never shrinks.**
  - `renderFrames` decrements a local copy of the ramp count. It then subtracts
    that exhausted copy from `rampRemaining_`
    (`Sources/DSPHeaders/include/DSPHeaders/EventProcessor.hpp:316-319`).
  - So rendering never lowers `rampRemaining_`; only `renderingStateChanged`
    resets it.
  - The one-frame calls of a ramp all carry the segment's offset, because the
    loop does not advance it.
- **Method naming.** `checkForParameterChanges` calls `checkForChange`
  (`EventProcessor.hpp:209`). The parameter class names that member
  `checkForPendingChange`; the model calls that.
- **`Ramper::start(c, 0)` keeps a running ramp.** It replaces the coefficients
  but leaves the countdown. The next step then moves on from the new
  coefficients towards the old goal (`Biquad.ImmediateStartKeepsRamp`).
- **The clamp separates the pairings.** `forceMinToZero`
  (`Sources/DSPHeaders/include/DSPHeaders/Biquad.hpp:256-259`) acts on what
  each graph feeds back. Direct and CanonicalTranspose feed back the clamped
  output; Canonical and DirectTranspose the unclamped theta. So Direct and
  Canonical, and the two transposes, differ once the clamp fires
  (`Biquad.ClampSeparatesDirectFromCanonical`); all four agree while it does
  not (`Biquad.AllFormsAgreeUnclamped`).
- **Accessors that advance a ramp.** `Filter::gainValue` and
  `Filter::storageComponent` call the mutating `coefficients()`. So they
  advance a running ramp.
- **The preset store.** The audio unit's `saveUserPreset`/`deleteUserPreset`
  are protocol requirements. They follow the test double of
  `Tests/AUv3SupportTests/Hosts/UserPresetsManagerTests.swift:21-31`: save
  replaces by number or appends, and delete removes by number.
- **Which header is modelled.** The headers under `include/DSPHeaders/` are the
  ones modelled. The older copies directly under `include/` are superseded.

## Left out

- Floating-point rounding: `AUValue`, `float` and `double` are exact reals. So
  `percentageOut`/`percentageIn` round-trip exactly here, which a `float` does
  not always do.
- Atomics and threading: `pendingValue_` and the other atomics are plain fields.
- I/O and the audio system:
  - buffer facets, `pullInput`, output buffer set-up and `memset`;
  - `AudioTimeStamp` (its sample time is the `now` parameter);
  - `os_log`.
  - The input pull is a parameter, `Option<int>`: `None` for no pull block.
- `rampDuration_ = floor(0.02 * sampleRate)` in `setRenderingFormat`. It needs
  the format's sample rate, so the ramp duration is a parameter.
- Cubic interpolation in `DelayBuffer` and `DSP::Interpolation`: it is a float
  table computation.
- The transcendental `ConstMath` functions (sin, exp, log, pow), and
  `ParametricValue.exponential`/`logarithmic`/`squareRoot`/`cubeRoot`: they
  have no exact real counterpart.
- The Biquad coefficient generators (LPF1 … APF2): these are trigonometric.
- `presetsOrderedByName`: it uses a locale-aware string comparison.
- `LFO::negativeQuadPhaseValue`: it passes the ramping parameter object where
  `wrappedModuloCounter` expects a number. So it compiles only if never
  instantiated.
- `BusBuffers::shiftOver`: it moves raw channel pointers, and channels are
  modelled as whole arrays, not pointers.
- Thrown Swift errors: the facade's save and delete never throw here.
- `DSP.ParabolicSineBounded`: the bound is proved on [-pi, pi] only, the range
  the LFO uses.
- `DelayBuffer.DelayBuffer.constructor`: it requires a size of at most 2^64,
  the range a `size_t` can hold.
- `Biquad.RampFactor`: it requires a positive sample count. The source divides
  by it, and only calls it with a positive duration.
- `BusBuffers.BusBuffers.AddStereo`: it requires distinct channel buffers.
  Aliased channels are not modelled.
- `BusBuffers.BusBuffers.AddAll`: it requires distinct channel buffers, for the
  same reason.
- `BusBuffers.BusBuffers.AddAlternating`: it requires distinct channel buffers,
  for the same reason.
- `UserPresets.FindByName`: names are compared scalar by scalar. Swift's
  `String ==` compares by Unicode canonical equivalence, so "Cafe\u{301}"
  and "Caf\u{e9}" match in the source but not here; normalisation is not
  modelled.
- `UserPresets.UserPresetsManager.MakeCurrentPresetNamed`: it uses
  `FindByName`, so it shares that scalar-by-scalar comparison.
- `ConstMath.Truncate`: the cast is an unbounded integer here, and so are
  `ConstMath.Floor`, `ConstMath.Ceil` and the offset in
  `DelayBuffer.DelayBuffer.Read`. In the source `static_cast<long long>` is
  undefined once |x| >= 2^63, and `read`'s `int(delay)` once |delay| >= 2^31
  (`ConstMath.TruncateFitsWidth` states the range where they agree).
- `ConstMath.IPow`: the `a == 2` shift `Integer(1) << n` is an unbounded
  integer here. In the source it overflows a fixed-width `Integer` once
  n >= width - 1 (`ConstMath.ShiftFitsWidth` states that range). A zero base
  with a negative exponent is excluded by the requires: the source divides
  by zero there.
- `FourCharCode.FromString`: Swift characters (extended grapheme clusters) are
  modelled as single Unicode scalars.
- `FourCharCode.StringValue`: `String(bytes:encoding:)!` would trap on invalid
  UTF-8. Here it gives `None` instead.
- `EventProcessor.EventProcessor.ProcessAndRender`: frame counts and sample
  times are unbounded integers. The UInt32 and Int64 wrap-around of the source
  is not modelled.
- `PhaseIncrement.hpp` (a cached increment over a float parameter) and the
  `ClosedRange` span/mid helpers are not part of this model.
- The thin parameter subclasses (`Bool`, `Integral`, `Percentage`, `Float`,
  `Milliseconds`) are `Parameters.Base` with a `Transformer` pair. They have no
  separate model.
