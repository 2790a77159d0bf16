/**
 `Biquad`: second-order IIR filters. A filter keeps four registers of state
 and a set of five coefficients; one of four equivalent signal graphs turns
 each input sample into an output sample. Coefficient changes can be ramped
 over a number of samples by the `Ramper`, which lands exactly on the goal.
 */
module Biquad {

  /** `Coefficients`: the numerator `a0`, `a1`, `a2` and the denominator `b1`, `b2`. */
  datatype Coefficients = Coefficients(a0: real, a1: real, a2: real, b1: real, b2: real)

  /** A default-constructed `Coefficients`. */
  const ZeroCoefficients := Coefficients(0.0, 0.0, 0.0, 0.0, 0.0)

  /** `operator+=`: the change is added coefficient by coefficient. */
  function Add(c: Coefficients, change: Coefficients): (r: Coefficients)
    ensures change == ZeroCoefficients ==> r == c
    ensures c == ZeroCoefficients ==> r == change
  {
    Coefficients(c.a0 + change.a0, c.a1 + change.a1, c.a2 + change.a2, c.b1 + change.b1, c.b2 + change.b2)
  }

  /** `count` applications of `+=` with the same change. */
  function AddTimes(c: Coefficients, change: Coefficients, count: nat): Coefficients
    decreases count
  {
    if count == 0 then c else AddTimes(Add(c, change), change, count - 1)
  }

  /** `rampFactor(goal, sampleCount)`: the per-sample change that moves `c` to `goal` in `sampleCount` steps. */
  function RampFactor(c: Coefficients, goal: Coefficients, sampleCount: nat): Coefficients
    requires sampleCount > 0
  {
    var factor := 1.0 / sampleCount as real;
    Coefficients((goal.a0 - c.a0) * factor, (goal.a1 - c.a1) * factor, (goal.a2 - c.a2) * factor,
                 (goal.b1 - c.b1) * factor, (goal.b2 - c.b2) * factor)
  }

  /** Repeated `+=` is scaling: `count` additions of a change add `count` times the change. */
  lemma {:induction false} AddTimesScales(c: Coefficients, change: Coefficients, count: nat)
    ensures var k := count as real;
      AddTimes(c, change, count) == Coefficients(c.a0 + k * change.a0, c.a1 + k * change.a1,
                                                 c.a2 + k * change.a2, c.b1 + k * change.b1, c.b2 + k * change.b2)
    decreases count
  {
    if count > 0 {
      AddTimesScales(Add(c, change), change, count - 1);
    }
  }

  /** `n * ((g - c) * (1 / n)) == g - c`, the arithmetic behind `RampFactorReachesGoal`. */
  lemma ScaledFactor(n: real, c: real, g: real)
    requires n > 0.0
    ensures c + n * ((g - c) * (1.0 / n)) == g
  {
    var f := 1.0 / n;
    assert n * f == 1.0;
    assert n * ((g - c) * f) == (g - c) * (n * f);
  }

  /** Adding the ramp factor `sampleCount` times moves the coefficients exactly onto the goal. */
  lemma RampFactorReachesGoal(c: Coefficients, goal: Coefficients, sampleCount: nat)
    requires sampleCount > 0
    ensures AddTimes(c, RampFactor(c, goal, sampleCount), sampleCount) == goal
  {
    var n := sampleCount as real;
    AddTimesScales(c, RampFactor(c, goal, sampleCount), sampleCount);
    ScaledFactor(n, c.a0, goal.a0);
    ScaledFactor(n, c.a1, goal.a1);
    ScaledFactor(n, c.a2, goal.a2);
    ScaledFactor(n, c.b1, goal.b1);
    ScaledFactor(n, c.b2, goal.b2);
  }

  /** `State`: the four registers a transform keeps between samples. */
  datatype State = State(xz1: real, xz2: real, yz1: real, yz2: real)

  /** A default-constructed `State`. */
  const ZeroState := State(0.0, 0.0, 0.0, 0.0)

  /** The noise floor of `forceMinToZero`. */
  const NoiseFloor: real := 0.0000000002

  /** `Transform::Base::forceMinToZero`: a value within the noise floor of zero becomes zero. */
  function ForceMinToZero(v: real): (r: real)
    ensures r == 0.0 || r == v
    ensures r == 0.0 <==> -NoiseFloor <= v <= NoiseFloor
    ensures r != v <==> (0.0 < v <= NoiseFloor || -NoiseFloor <= v < 0.0)
  {
    if (v > 0.0 && v <= NoiseFloor) || (v < 0.0 && -v <= NoiseFloor) then 0.0 else v
  }

  /** The four signal graphs of `Transform`. */
  datatype TransformKind = Direct | Canonical | DirectTranspose | CanonicalTranspose

  /** `storageComponent` of each graph: the registers folded with the coefficients. */
  function StorageComponent(kind: TransformKind, s: State, c: Coefficients): (r: real)
    ensures kind == Canonical || kind == DirectTranspose ==> r == 0.0
    ensures kind == CanonicalTranspose ==> r == s.xz1
  {
    match kind
    case Direct => c.a1 * s.xz1 + c.a2 * s.xz2 - c.b1 * s.yz1 - c.b2 * s.yz2
    case Canonical => 0.0
    case DirectTranspose => 0.0
    case CanonicalTranspose => s.xz1
  }

  /**
   `Transform::Direct::transform`: the output is the clamped sum of the input
   term and the storage component; the registers shift by one sample.
   */
  function DirectTransform(input: real, s: State, c: Coefficients): (r: (real, State))
    ensures r.0 == ForceMinToZero(c.a0 * input + StorageComponent(Direct, s, c))
    ensures r.1 == State(input, s.xz1, r.0, s.yz1)
  {
    var sum := c.a0 * input + c.a1 * s.xz1 + c.a2 * s.xz2 - c.b1 * s.yz1 - c.b2 * s.yz2;
    assert sum == c.a0 * input + StorageComponent(Direct, s, c);
    var output := ForceMinToZero(sum);
    (output, s.(xz2 := s.xz1, xz1 := input, yz2 := s.yz1, yz1 := output))
  }

  /**
   `Transform::Canonical::transform` (direct form II): the feedback value
   theta goes into `x_z1`; the `y` registers are not used.
   */
  /** The feedback node theta of the canonical graph. */
  function CanonicalTheta(input: real, s: State, c: Coefficients): real
  {
    input - c.b1 * s.xz1 - c.b2 * s.xz2
  }

  function CanonicalTransform(input: real, s: State, c: Coefficients): (r: (real, State))
    ensures r.0 == ForceMinToZero(c.a0 * CanonicalTheta(input, s, c) + c.a1 * s.xz1 + c.a2 * s.xz2)
    ensures r.1 == State(CanonicalTheta(input, s, c), s.xz1, s.yz1, s.yz2)
  {
    var output := ForceMinToZero(c.a0 * CanonicalTheta(input, s, c) + c.a1 * s.xz1 + c.a2 * s.xz2);
    (output, s.(xz2 := s.xz1, xz1 := CanonicalTheta(input, s, c)))
  }

  /** The node theta of the transposed direct graph: the input plus the fed-back register. */
  function DirectTransposeTheta(input: real, s: State): real
  {
    input + s.yz1
  }

  /** `Transform::DirectTranspose::transform`. */
  function DirectTransposeTransform(input: real, s: State, c: Coefficients): (r: (real, State))
    ensures r.0 == ForceMinToZero(c.a0 * DirectTransposeTheta(input, s) + s.xz1)
  {
    var theta := DirectTransposeTheta(input, s);
    var output := ForceMinToZero(c.a0 * theta + s.xz1);
    (output, State(s.xz2 + c.a1 * theta, c.a2 * theta, s.yz2 - c.b1 * theta, -c.b2 * theta))
  }

  /**
   `Transform::CanonicalTranspose::transform`: the output is the clamped sum of
   the input term and the storage component; the `y` registers are not used.
   */
  function CanonicalTransposeTransform(input: real, s: State, c: Coefficients): (r: (real, State))
    ensures r.0 == ForceMinToZero(c.a0 * input + StorageComponent(CanonicalTranspose, s, c))
    ensures r.1.yz1 == s.yz1 && r.1.yz2 == s.yz2
  {
    var output := ForceMinToZero(c.a0 * input + s.xz1);
    (output, s.(xz1 := c.a1 * input - c.b1 * output + s.xz2, xz2 := c.a2 * input - c.b2 * output))
  }

  /** The transform a filter of the given graph applies: the output and the registers after it. */
  function TransformSample(kind: TransformKind, input: real, s: State, c: Coefficients): (r: (real, State))
    ensures kind == Direct ==> r.1 == State(input, s.xz1, r.0, s.yz1)
    ensures kind == Canonical ==> r.1.xz1 == CanonicalTheta(input, s, c) && r.1.xz2 == s.xz1
    ensures kind == Canonical || kind == CanonicalTranspose ==> r.1.yz1 == s.yz1 && r.1.yz2 == s.yz2
    ensures kind == Direct || kind == CanonicalTranspose ==>
      r.0 == ForceMinToZero(c.a0 * input + StorageComponent(kind, s, c))
  {
    match kind
    case Direct => DirectTransform(input, s, c)
    case Canonical => CanonicalTransform(input, s, c)
    case DirectTranspose => DirectTransposeTransform(input, s, c)
    case CanonicalTranspose => CanonicalTransposeTransform(input, s, c)
  }

  /** A run of samples through one graph with fixed coefficients: the outputs and the final registers. */
  function Run(kind: TransformKind, inputs: seq<real>, s: State, c: Coefficients): (r: (seq<real>, State))
    ensures |r.0| == |inputs|
    decreases |inputs|
  {
    if inputs == [] then ([], s)
    else
      var step := TransformSample(kind, inputs[0], s, c);
      var rest := Run(kind, inputs[1..], step.1, c);
      ([step.0] + rest.0, rest.1)
  }

  /**
   How the registers of the direct form correspond to those of the transposed
   canonical form: the latter hold the partial sums the former would compute.
   */
  ghost predicate DirectMatchesCanonicalTranspose(d: State, t: State, c: Coefficients)
  {
    t.xz1 == StorageComponent(Direct, d, c) && t.xz2 == c.a2 * d.xz1 - c.b2 * d.yz1
  }

  /** One sample: corresponding registers give the same output and correspond again afterwards. */
  lemma DirectCanonicalTransposeStep(input: real, d: State, t: State, c: Coefficients)
    requires DirectMatchesCanonicalTranspose(d, t, c)
    ensures var rd := DirectTransform(input, d, c); var rt := CanonicalTransposeTransform(input, t, c);
      rd.0 == rt.0 && DirectMatchesCanonicalTranspose(rd.1, rt.1, c)
  {
  }

  /** Over any run of samples the direct form and the transposed canonical form give the same outputs. */
  lemma {:induction false} DirectEquivalentToCanonicalTranspose(inputs: seq<real>, d: State, t: State, c: Coefficients)
    requires DirectMatchesCanonicalTranspose(d, t, c)
    ensures Run(Direct, inputs, d, c).0 == Run(CanonicalTranspose, inputs, t, c).0
    decreases |inputs|
  {
    if inputs != [] {
      DirectCanonicalTransposeStep(inputs[0], d, t, c);
      DirectEquivalentToCanonicalTranspose(inputs[1..], DirectTransform(inputs[0], d, c).1,
                                           CanonicalTransposeTransform(inputs[0], t, c).1, c);
    }
  }

  /**
   How the registers of the canonical form correspond to those of the
   transposed direct form: the latter hold the sums the former would form
   from its two theta registers.
   */
  ghost predicate CanonicalMatchesDirectTranspose(n: State, t: State, c: Coefficients)
  {
    t.yz1 == -c.b1 * n.xz1 - c.b2 * n.xz2 && t.yz2 == -c.b2 * n.xz1
    && t.xz1 == c.a1 * n.xz1 + c.a2 * n.xz2 && t.xz2 == c.a2 * n.xz1
  }

  /** One sample: corresponding registers give the same output and correspond again afterwards. */
  lemma CanonicalDirectTransposeStep(input: real, n: State, t: State, c: Coefficients)
    requires CanonicalMatchesDirectTranspose(n, t, c)
    ensures var rn := CanonicalTransform(input, n, c); var rt := DirectTransposeTransform(input, t, c);
      rn.0 == rt.0 && CanonicalMatchesDirectTranspose(rn.1, rt.1, c)
  {
    // Products are taken of the theta terms themselves, never of local copies, so that the arithmetic
    // facts below and the unfolded transforms speak of the same products.
    assert DirectTransposeTheta(input, t) == CanonicalTheta(input, n, c);
    ScaleEqual(c.a0, DirectTransposeTheta(input, t), CanonicalTheta(input, n, c));
    assert c.a0 * DirectTransposeTheta(input, t) + t.xz1 == c.a0 * CanonicalTheta(input, n, c) + c.a1 * n.xz1 + c.a2 * n.xz2;
    ScaleEqual(c.a1, DirectTransposeTheta(input, t), CanonicalTheta(input, n, c));
    ScaleEqual(c.a2, DirectTransposeTheta(input, t), CanonicalTheta(input, n, c));
    ScaleEqual(c.b1, DirectTransposeTheta(input, t), CanonicalTheta(input, n, c));
    ScaleEqual(-c.b2, DirectTransposeTheta(input, t), CanonicalTheta(input, n, c));
    ScaleEqual(-c.b1, CanonicalTransform(input, n, c).1.xz1, CanonicalTheta(input, n, c));
    ScaleEqual(-c.b2, CanonicalTransform(input, n, c).1.xz1, CanonicalTheta(input, n, c));
    ScaleEqual(c.a1, CanonicalTransform(input, n, c).1.xz1, CanonicalTheta(input, n, c));
    ScaleEqual(c.a2, CanonicalTransform(input, n, c).1.xz1, CanonicalTheta(input, n, c));
    ScaleEqual(c.b2, CanonicalTransform(input, n, c).1.xz2, n.xz1);
    ScaleEqual(c.a2, CanonicalTransform(input, n, c).1.xz2, n.xz1);
  }

  /** Equals scaled by the same factor are equal. */
  lemma ScaleEqual(k: real, u: real, v: real)
    requires u == v
    ensures k * u == k * v
  {
  }

  /** Over any run of samples the canonical form and the transposed direct form give the same outputs. */
  lemma {:induction false} CanonicalEquivalentToDirectTranspose(inputs: seq<real>, n: State, t: State, c: Coefficients)
    requires CanonicalMatchesDirectTranspose(n, t, c)
    ensures Run(Canonical, inputs, n, c).0 == Run(DirectTranspose, inputs, t, c).0
    decreases |inputs|
  {
    if inputs != [] {
      CanonicalDirectTransposeStep(inputs[0], n, t, c);
      CanonicalEquivalentToDirectTranspose(inputs[1..], CanonicalTransform(inputs[0], n, c).1,
                                           DirectTransposeTransform(inputs[0], t, c).1, c);
    }
  }

  /** Filters reset to zero registers agree: the direct form with the transposed canonical one, and vice versa. */
  lemma ResetFiltersAgree(inputs: seq<real>, c: Coefficients)
    ensures Run(Direct, inputs, ZeroState, c).0 == Run(CanonicalTranspose, inputs, ZeroState, c).0
    ensures Run(Canonical, inputs, ZeroState, c).0 == Run(DirectTranspose, inputs, ZeroState, c).0
  {
    DirectEquivalentToCanonicalTranspose(inputs, ZeroState, ZeroState, c);
    CanonicalEquivalentToDirectTranspose(inputs, ZeroState, ZeroState, c);
  }

  /**
   How the registers of the direct form correspond to those of the canonical
   form while no output has been clamped: with `w3`, `w4` the two theta values
   before the canonical registers, the x registers hold the inputs those theta
   values came from and the y registers the outputs they gave.
   */
  ghost predicate DirectMatchesCanonical(d: State, n: State, w3: real, w4: real, c: Coefficients)
  {
    d.xz1 == n.xz1 + c.b1 * n.xz2 + c.b2 * w3 && d.xz2 == n.xz2 + c.b1 * w3 + c.b2 * w4
    && d.yz1 == c.a0 * n.xz1 + c.a1 * n.xz2 + c.a2 * w3 && d.yz2 == c.a0 * n.xz2 + c.a1 * w3 + c.a2 * w4
  }

  /** The sum the direct form clamps to produce its output. */
  function DirectSum(input: real, d: State, c: Coefficients): real
  {
    c.a0 * input + StorageComponent(Direct, d, c)
  }

  /** The direct form never clamps on this run: every output sum lies outside the noise band or is zero. */
  ghost predicate DirectNeverClamps(inputs: seq<real>, d: State, c: Coefficients)
    decreases |inputs|
  {
    inputs == [] ||
    (ForceMinToZero(DirectSum(inputs[0], d, c)) == DirectSum(inputs[0], d, c)
     && DirectNeverClamps(inputs[1..], DirectTransform(inputs[0], d, c).1, c))
  }

  /** The direct and canonical output sums agree on corresponding registers. */
  lemma DirectCanonicalSums(input: real, d: State, n: State, w3: real, w4: real, c: Coefficients)
    requires DirectMatchesCanonical(d, n, w3, w4, c)
    ensures DirectSum(input, d, c) == c.a0 * CanonicalTheta(input, n, c) + c.a1 * n.xz1 + c.a2 * n.xz2
  {
    var t := CanonicalTheta(input, n, c);
    assert input == t + c.b1 * n.xz1 + c.b2 * n.xz2;
    ScaleEqual(c.a0, input, t + c.b1 * n.xz1 + c.b2 * n.xz2);
    ScaleEqual(c.a1, d.xz1, n.xz1 + c.b1 * n.xz2 + c.b2 * w3);
    ScaleEqual(c.a2, d.xz2, n.xz2 + c.b1 * w3 + c.b2 * w4);
    ScaleEqual(c.b1, d.yz1, c.a0 * n.xz1 + c.a1 * n.xz2 + c.a2 * w3);
    ScaleEqual(c.b2, d.yz2, c.a0 * n.xz2 + c.a1 * w3 + c.a2 * w4);
  }

  /** One sample without clamping: corresponding registers give the same output and correspond again. */
  lemma DirectCanonicalStep(input: real, d: State, n: State, w3: real, w4: real, c: Coefficients)
    requires DirectMatchesCanonical(d, n, w3, w4, c)
    requires ForceMinToZero(DirectSum(input, d, c)) == DirectSum(input, d, c)
    ensures var rd := DirectTransform(input, d, c); var rn := CanonicalTransform(input, n, c);
      rd.0 == rn.0 && DirectMatchesCanonical(rd.1, rn.1, n.xz2, w3, c)
  {
    DirectCanonicalSums(input, d, n, w3, w4, c);
    var sum := DirectSum(input, d, c);
    assert DirectTransform(input, d, c) == (sum, State(input, d.xz1, sum, d.yz1));
    CanonicalUnclamped(input, n, c, sum);
    MatchesAfterStep(input, sum, CanonicalTheta(input, n, c), d, n, w3, c);
  }

  /** A canonical output sum the clamp leaves alone is the output. */
  lemma CanonicalUnclamped(input: real, n: State, c: Coefficients, sum: real)
    requires c.a0 * CanonicalTheta(input, n, c) + c.a1 * n.xz1 + c.a2 * n.xz2 == sum
    requires ForceMinToZero(sum) == sum
    ensures CanonicalTransform(input, n, c) == (sum, State(CanonicalTheta(input, n, c), n.xz1, n.yz1, n.yz2))
  {
  }

  /** The registers after one unclamped sample correspond, given the sums agree. */
  lemma MatchesAfterStep(input: real, sum: real, theta: real, d: State, n: State, w3: real, c: Coefficients)
    requires theta == CanonicalTheta(input, n, c)
    requires sum == c.a0 * theta + c.a1 * n.xz1 + c.a2 * n.xz2
    requires d.xz1 == n.xz1 + c.b1 * n.xz2 + c.b2 * w3 && d.yz1 == c.a0 * n.xz1 + c.a1 * n.xz2 + c.a2 * w3
    ensures DirectMatchesCanonical(State(input, d.xz1, sum, d.yz1), State(theta, n.xz1, n.yz1, n.yz2), n.xz2, w3, c)
  {
  }

  /**
   While no output falls inside the noise band, the direct and the canonical
   form give the same outputs. The clamp breaks this in general: the direct
   form feeds back the clamped output, the canonical form the unclamped theta.
   */
  lemma {:induction false} DirectEquivalentToCanonicalUnclamped(inputs: seq<real>, d: State, n: State, w3: real, w4: real,
                                                                c: Coefficients)
    requires DirectMatchesCanonical(d, n, w3, w4, c) && DirectNeverClamps(inputs, d, c)
    ensures Run(Direct, inputs, d, c).0 == Run(Canonical, inputs, n, c).0
    decreases |inputs|
  {
    if inputs != [] {
      DirectCanonicalStep(inputs[0], d, n, w3, w4, c);
      DirectEquivalentToCanonicalUnclamped(inputs[1..], DirectTransform(inputs[0], d, c).1,
                                           CanonicalTransform(inputs[0], n, c).1, n.xz2, w3, c);
    }
  }

  /** From reset registers, all four graphs give the same outputs on every run the direct form does not clamp. */
  lemma AllFormsAgreeUnclamped(inputs: seq<real>, c: Coefficients)
    requires DirectNeverClamps(inputs, ZeroState, c)
    ensures Run(Direct, inputs, ZeroState, c).0 == Run(Canonical, inputs, ZeroState, c).0
    ensures Run(Direct, inputs, ZeroState, c).0 == Run(DirectTranspose, inputs, ZeroState, c).0
    ensures Run(Direct, inputs, ZeroState, c).0 == Run(CanonicalTranspose, inputs, ZeroState, c).0
  {
    DirectEquivalentToCanonicalUnclamped(inputs, ZeroState, ZeroState, 0.0, 0.0, c);
    ResetFiltersAgree(inputs, c);
  }

  /**
   The clamp separates the pairings: with `a0 = 1`, `b1 = -2` and the rest 0,
   the input `1e-10, 0, 0` gives `0, 0, 0` on the direct form, whose feedback
   is clamped away, and `0, 0, 4e-10` on the canonical form, whose theta keeps
   doubling.
   */
  lemma ClampSeparatesDirectFromCanonical()
    ensures var c := Coefficients(1.0, 0.0, 0.0, -2.0, 0.0);
      var inputs := [0.0000000001, 0.0, 0.0];
      Run(Direct, inputs, ZeroState, c).0 == [0.0, 0.0, 0.0]
      && Run(Canonical, inputs, ZeroState, c).0 == [0.0, 0.0, 0.0000000004]
  {
    var c := Coefficients(1.0, 0.0, 0.0, -2.0, 0.0);
    var inputs := [0.0000000001, 0.0, 0.0];
    var d1 := DirectTransform(inputs[0], ZeroState, c);
    var d2 := DirectTransform(inputs[1], d1.1, c);
    var d3 := DirectTransform(inputs[2], d2.1, c);
    assert d1.0 == 0.0 && d2.0 == 0.0 && d3.0 == 0.0;
    assert Run(Direct, inputs[2..], d2.1, c).0 == [d3.0];
    assert Run(Direct, inputs[1..], d1.1, c).0 == [d2.0, d3.0];
    var n1 := CanonicalTransform(inputs[0], ZeroState, c);
    var n2 := CanonicalTransform(inputs[1], n1.1, c);
    var n3 := CanonicalTransform(inputs[2], n2.1, c);
    assert n1.0 == 0.0 && n2.0 == 0.0 && n3.0 == 0.0000000004;
    assert Run(Canonical, inputs[2..], n2.1, c).0 == [n3.0];
    assert Run(Canonical, inputs[1..], n1.1, c).0 == [n2.0, n3.0];
  }

  /** The fields of `Filter::Ramper`: `rampRemaining_`, `coefficients_`, `change_`, `goal_`. */
  datatype RamperState = RamperState(remaining: nat, coefficients: Coefficients, change: Coefficients, goal: Coefficients)

  /**
   `Ramper::start`: with a positive duration a ramp towards the new
   coefficients begins; with duration 0 the coefficients are replaced at once
   and the countdown is left as it was.
   */
  function RamperStart(r: RamperState, goal: Coefficients, duration: nat): (t: RamperState)
    ensures duration == 0 ==> t == r.(coefficients := goal)
    ensures duration > 0 ==> t.remaining == duration && t.goal == goal && t.coefficients == r.coefficients
    ensures duration > 0 ==> AddTimes(t.coefficients, t.change, duration) == goal
  {
    if duration > 0 then
      RampFactorReachesGoal(r.coefficients, goal, duration);
      r.(remaining := duration, goal := goal, change := RampFactor(r.coefficients, goal, duration))
    else r.(coefficients := goal)
  }

  /** `Ramper::reset`: a running ramp is cut short at its goal. */
  function RamperReset(r: RamperState): (t: RamperState)
    ensures t.remaining == 0
    ensures r.remaining > 0 ==> t.coefficients == r.goal
    ensures r.remaining == 0 ==> t == r
    ensures t.change == r.change && t.goal == r.goal
  {
    if r.remaining > 0 then r.(remaining := 0, coefficients := r.goal) else r
  }

  /**
   `Ramper::coefficients()`: the coefficients to use for one sample. On the
   last step of a ramp they snap exactly to the goal; before that the change
   is added and the countdown decremented.
   */
  function RamperNext(r: RamperState): (res: (Coefficients, RamperState))
    ensures res.0 == res.1.coefficients
    ensures res.1.change == r.change && res.1.goal == r.goal
    ensures r.remaining == 0 ==> res.1 == r
    ensures r.remaining == 1 ==> res.1.remaining == 0 && res.0 == r.goal
    ensures r.remaining > 1 ==> res.1.remaining == r.remaining - 1 && res.0 == Add(r.coefficients, r.change)
  {
    if r.remaining == 0 then (r.coefficients, r)
    else if r.remaining == 1 then (r.goal, r.(remaining := 0, coefficients := r.goal))
    else
      var c := Add(r.coefficients, r.change);
      (c, r.(remaining := r.remaining - 1, coefficients := c))
  }

  /** `k` calls of `coefficients()` in a row. */
  function RamperSteps(r: RamperState, k: nat): RamperState
    decreases k
  {
    if k == 0 then r else RamperSteps(RamperNext(r).1, k - 1)
  }

  /** Before the last step of a ramp, the `k`-th call has added the change `k` times. */
  lemma {:induction false} RamperStepsAdd(r: RamperState, k: nat)
    requires k < r.remaining
    ensures RamperSteps(r, k) == r.(remaining := r.remaining - k, coefficients := AddTimes(r.coefficients, r.change, k))
    decreases k
  {
    if k > 0 {
      RamperStepsAdd(RamperNext(r).1, k - 1);
      AddTimesFirst(r.coefficients, r.change, k - 1);
    }
  }

  lemma {:induction false} AddTimesFirst(c: Coefficients, change: Coefficients, k: nat)
    ensures AddTimes(Add(c, change), change, k) == Add(AddTimes(c, change, k), change)
    decreases k
  {
    if k > 0 {
      AddTimesFirst(Add(c, change), change, k - 1);
    }
  }

  /** Once the countdown is 0, further calls change nothing. */
  lemma {:induction false} RamperStepsIdle(r: RamperState, k: nat)
    requires r.remaining == 0
    ensures RamperSteps(r, k) == r
    decreases k
  {
    if k > 0 {
      RamperStepsIdle(RamperNext(r).1, k - 1);
    }
  }

  lemma {:induction false} RamperStepsSplit(r: RamperState, a: nat, b: nat)
    ensures RamperSteps(r, a + b) == RamperSteps(RamperSteps(r, a), b)
    decreases a
  {
    if a > 0 {
      RamperStepsSplit(RamperNext(r).1, a - 1, b);
    }
  }

  /**
   A ramp started over `duration > 0` samples moves linearly: the `k`-th call
   before the end has added the ramp factor `k` times, and from the
   `duration`-th call on the coefficients are the goal exactly.
   */
  lemma RampEndsOnGoal(r: RamperState, goal: Coefficients, duration: nat, k: nat)
    requires duration > 0
    ensures var t := RamperStart(r, goal, duration);
      k < duration ==> RamperSteps(t, k).coefficients == AddTimes(r.coefficients, RampFactor(r.coefficients, goal, duration), k)
    ensures var t := RamperStart(r, goal, duration);
      k >= duration ==> RamperSteps(t, k).coefficients == goal && RamperSteps(t, k).remaining == 0
  {
    var t := RamperStart(r, goal, duration);
    RamperStepsAdd(t, duration - 1);
    if k < duration {
      RamperStepsAdd(t, k);
    } else {
      var u := RamperSteps(t, duration - 1);
      assert RamperSteps(t, duration) == RamperNext(u).1 by {
        RamperStepsSplit(t, duration - 1, 1);
      }
      RamperStepsIdle(RamperNext(u).1, k - duration);
      RamperStepsSplit(t, duration, k - duration);
    }
  }

  /**
   `start(c, 0)` while a ramp is running replaces the coefficients but does not
   cancel the ramp: the next call moves on from the new coefficients towards
   the old goal.
   */
  lemma ImmediateStartKeepsRamp(r: RamperState, c: Coefficients)
    requires r.remaining > 1
    ensures var t := RamperStart(r, c, 0);
      t.remaining == r.remaining && RamperNext(t).0 == Add(c, r.change)
  {
  }

  /** `Filter::Ramper`. */
  class Ramper {
    var remaining: nat
    var coefficients: Coefficients
    var change: Coefficients
    var goal: Coefficients

    function Snapshot(): RamperState
      reads this
    {
      RamperState(remaining, coefficients, change, goal)
    }

    /** A ramper holding the given coefficients, with no ramp. */
    constructor(initial: Coefficients)
      ensures Snapshot() == RamperState(0, initial, ZeroCoefficients, ZeroCoefficients)
    {
      remaining := 0;
      coefficients := initial;
      change := ZeroCoefficients;
      goal := ZeroCoefficients;
    }

    /** `start`. */
    method Start(newCoefficients: Coefficients, duration: nat)
      modifies this
      ensures Snapshot() == RamperStart(old(Snapshot()), newCoefficients, duration)
    {
      if duration > 0 {
        remaining := duration;
        goal := newCoefficients;
        change := RampFactor(coefficients, goal, duration);
      } else {
        coefficients := newCoefficients;
      }
    }

    /** `reset`. */
    method Reset()
      modifies this
      ensures Snapshot() == RamperReset(old(Snapshot()))
    {
      if remaining > 0 {
        remaining := 0;
        coefficients := goal;
      }
    }

    /** `coefficients()`: the coefficients for one sample, advancing a running ramp. */
    method Current() returns (c: Coefficients)
      modifies this
      ensures (c, Snapshot()) == RamperNext(old(Snapshot()))
    {
      if remaining == 1 {
        remaining := 0;
        coefficients := goal;
      } else if remaining > 1 {
        remaining := remaining - 1;
        coefficients := Add(coefficients, change);
      }
      c := coefficients;
    }
  }

  /** `Filter<Transformer>`: a biquad filter over one of the four graphs. */
  class Filter {
    const kind: TransformKind
    var state: State
    const ramper: Ramper

    /** `Filter(coefficients)`: zero registers, the given coefficients, no ramp. */
    constructor(kind: TransformKind, initial: Coefficients)
      ensures this.kind == kind && state == ZeroState
      ensures fresh(ramper) && ramper.Snapshot() == RamperState(0, initial, ZeroCoefficients, ZeroCoefficients)
    {
      this.kind := kind;
      state := ZeroState;
      ramper := new Ramper(initial);
    }

    /** `setCoefficients(coefficients, rampDurationInSamples)`. */
    method SetCoefficients(newCoefficients: Coefficients, duration: nat)
      modifies ramper
      ensures ramper.Snapshot() == RamperStart(old(ramper.Snapshot()), newCoefficients, duration)
    {
      ramper.Start(newCoefficients, duration);
    }

    /** `reset`: zero registers, and a running ramp snaps to its goal. */
    method Reset()
      modifies this, ramper
      ensures state == ZeroState
      ensures ramper.Snapshot() == RamperReset(old(ramper.Snapshot()))
    {
      state := ZeroState;
      ramper.Reset();
    }

    /** `transform(input)`: one sample through the graph with the ramper's current coefficients. */
    method Transform(input: real) returns (output: real)
      modifies this, ramper
      ensures var next := RamperNext(old(ramper.Snapshot()));
        ramper.Snapshot() == next.1 && (output, state) == TransformSample(kind, input, old(state), next.0)
    {
      var c := ramper.Current();
      var r := TransformSample(kind, input, state, c);
      output, state := r.0, r.1;
    }

    /** `gainValue`: `a0` of the current coefficients, which advances a running ramp. */
    method GainValue() returns (gain: real)
      modifies ramper
      ensures var next := RamperNext(old(ramper.Snapshot()));
        ramper.Snapshot() == next.1 && gain == next.0.a0
    {
      var c := ramper.Current();
      gain := c.a0;
    }

    /** `storageComponent`: the graph's storage component, which advances a running ramp. */
    method Storage() returns (v: real)
      modifies ramper
      ensures var next := RamperNext(old(ramper.Snapshot()));
        ramper.Snapshot() == next.1 && v == StorageComponent(kind, state, next.0)
    {
      var c := ramper.Current();
      v := StorageComponent(kind, state, c);
    }
  }
}
