/**
 `LFO<T>`: a low-frequency oscillator. A modulo counter runs through [0, 1)
 by a per-sample phase increment (a ramping parameter, frequency over sample
 rate) and wraps around; a waveform function turns the counter into a bipolar
 value. A second counter runs a quarter period ahead.
 */
module LFO {
  import DSP
  import ConstMath
  import RampingParameter

  /** `LFOWaveform`. */
  datatype Waveform = Sinusoid | Triangle | Sawtooth | Square

  /** `wrappedModuloCounter`: bring a counter that stepped past either end of [0, 1] back by one period. */
  function WrappedModuloCounter(counter: real, inc: real): (r: real)
    ensures inc > 0.0 && counter >= 1.0 ==> r == counter - 1.0
    ensures inc < 0.0 && counter <= 0.0 ==> r == counter + 1.0
    ensures !(inc > 0.0 && counter >= 1.0) && !(inc < 0.0 && counter <= 0.0) ==> r == counter
  {
    if inc > 0.0 && counter >= 1.0 then counter - 1.0
    else if inc < 0.0 && counter <= 0.0 then counter + 1.0
    else counter
  }

  /** `incrementModuloCounter`: step by the increment, then wrap. */
  function IncrementModuloCounter(counter: real, inc: real): (r: real)
    ensures r == counter + inc || r == counter + inc - 1.0 || r == counter + inc + 1.0
    ensures inc == 0.0 ==> r == counter
  {
    WrappedModuloCounter(counter + inc, inc)
  }

  /** A rising counter stays in [0, 1) when the increment is less than a period. */
  lemma RisingCounterStaysInPeriod(counter: real, inc: real)
    requires 0.0 <= counter < 1.0 && 0.0 < inc < 1.0
    ensures 0.0 <= IncrementModuloCounter(counter, inc) < 1.0
    ensures IncrementModuloCounter(counter, inc) == counter + inc
         || IncrementModuloCounter(counter, inc) == counter + inc - 1.0
  {
  }

  /** A falling counter stays in (0, 1] when the decrement is less than a period. */
  lemma FallingCounterStaysInPeriod(counter: real, inc: real)
    requires 0.0 < counter <= 1.0 && -1.0 < inc < 0.0
    ensures 0.0 < IncrementModuloCounter(counter, inc) <= 1.0
  {
  }

  /** A zero increment leaves the counter where it is. */
  lemma StillCounter(counter: real)
    ensures IncrementModuloCounter(counter, 0.0) == counter
  {
  }

  /** `sineValue`: the parabolic sine of `pi - 2 pi c`, which is 0 at c = 0 and rises first. */
  function SineValue(counter: real): (r: real)
    ensures 0.0 <= counter <= 1.0 ==> -1.0 <= r <= 1.0
    ensures 0.0 <= counter <= 0.5 ==> r >= 0.0
    ensures 0.5 <= counter <= 1.0 ==> r <= 0.0
  {
    var angle := DSP.MathPi - counter * 2.0 * DSP.MathPi;
    if 0.0 <= counter <= 1.0 then
      assert angle == DSP.MathPi * (1.0 - 2.0 * counter);
      DSP.ParabolicSineBounded(angle);
      DSP.ParabolicSine(angle)
    else DSP.ParabolicSine(angle)
  }

  /** `sawtoothValue`: the counter mapped onto [-1, 1]. */
  function SawtoothValue(counter: real): (r: real)
    ensures r == 2.0 * counter - 1.0
  {
    DSP.UnipolarToBipolar(counter)
  }

  /** `triangleValue`: 1 at both ends of the period, -1 in the middle, linear in between. */
  function TriangleValue(counter: real): (r: real)
    ensures 0.0 <= counter <= 1.0 ==> -1.0 <= r <= 1.0
    ensures counter <= 0.5 ==> r == 1.0 - 4.0 * counter
    ensures counter >= 0.5 ==> r == 4.0 * counter - 3.0
  {
    DSP.UnipolarToBipolar(ConstMath.Abs(DSP.UnipolarToBipolar(counter)))
  }

  /** The triangle is symmetric about the middle of the period. */
  lemma TriangleSymmetric(counter: real)
    ensures TriangleValue(counter) == TriangleValue(1.0 - counter)
  {
  }

  /** `squareValue`: +1 for the second half of the period, -1 for the first. */
  function SquareValue(counter: real): (r: real)
    ensures r == 1.0 <==> counter >= 0.5
    ensures r == -1.0 <==> counter < 0.5
  {
    if counter >= 0.5 then 1.0 else -1.0
  }

  /** The four static value functions a generator pointer can hold. */
  datatype Generator = SineValueFn | SawtoothValueFn | TriangleValueFn | SquareValueFn

  /** Calling a generator on a counter: every generator stays in [-1, 1] over one period. */
  function Apply(g: Generator, counter: real): (r: real)
    ensures 0.0 <= counter <= 1.0 ==> -1.0 <= r <= 1.0
  {
    match g
    case SineValueFn => SineValue(counter)
    case SawtoothValueFn => SawtoothValue(counter)
    case TriangleValueFn => TriangleValue(counter)
    case SquareValueFn => SquareValue(counter)
  }

  /** `WaveformGenerator`: the value function for a waveform. */
  function WaveformGenerator(w: Waveform): (r: Generator)
    ensures GeneratorWaveform(r) == w
  {
    match w
    case Sinusoid => SineValueFn
    case Sawtooth => SawtoothValueFn
    case Triangle => TriangleValueFn
    case Square => SquareValueFn
  }

  /** `waveform()`: the waveform whose value function the generator is, found by comparing pointers. */
  function GeneratorWaveform(g: Generator): (r: Waveform)
    ensures r == Sinusoid <==> g.SineValueFn?
    ensures r == Sawtooth <==> g.SawtoothValueFn?
    ensures r == Triangle <==> g.TriangleValueFn?
    ensures r == Square <==> g.SquareValueFn?
  {
    if g == SineValueFn then Sinusoid
    else if g == SawtoothValueFn then Sawtooth
    else if g == TriangleValueFn then Triangle
    else Square
  }

  /** Every waveform has its own generator, and `waveform()` recovers it. */
  lemma WaveformRoundTrip(w: Waveform, v: Waveform)
    ensures GeneratorWaveform(WaveformGenerator(w)) == w
    ensures WaveformGenerator(w) == WaveformGenerator(v) <==> w == v
  {
  }

  /** The generator for each waveform computes that waveform's value function. */
  lemma GeneratorComputes(counter: real)
    ensures Apply(WaveformGenerator(Sinusoid), counter) == SineValue(counter)
    ensures Apply(WaveformGenerator(Sawtooth), counter) == SawtoothValue(counter)
    ensures Apply(WaveformGenerator(Triangle), counter) == TriangleValue(counter)
    ensures Apply(WaveformGenerator(Square), counter) == SquareValue(counter)
  {
  }

  /** `LFO`. */
  class LFO {
    var sampleRate: real
    var generator: Generator
    var moduloCounter: real
    var quadPhaseCounter: real
    const phaseIncrement: RampingParameter.RampingParameter

    /** `LFO(sampleRate, frequency, waveform)`: `setFrequency(frequency, 0)`, then `reset`. */
    constructor(sampleRate: real, frequency: real, waveform: Waveform)
      requires sampleRate != 0.0
      ensures this.sampleRate == sampleRate && Waveform() == waveform
      ensures phaseIncrement.value == frequency / sampleRate && phaseIncrement.remaining == 0
      ensures moduloCounter == (if frequency / sampleRate > 0.0 then 0.0 else 1.0) && quadPhaseCounter == 0.25
      ensures fresh(phaseIncrement)
    {
      this.sampleRate := sampleRate;
      generator := WaveformGenerator(waveform);
      moduloCounter := 0.0;
      quadPhaseCounter := 0.25;
      phaseIncrement := new RampingParameter.RampingParameter(0.0);
      new;
      SetFrequency(frequency, 0);
      Reset();
    }

    /** `setFrequency`: the phase increment moves to frequency over sample rate, ramping over `duration` frames. */
    method SetFrequency(frequency: real, duration: nat)
      requires sampleRate != 0.0
      modifies phaseIncrement
      ensures phaseIncrement.Snapshot() == RampingParameter.SetTo(old(phaseIncrement.Snapshot()), frequency / sampleRate, duration)
      ensures Frequency() == frequency
    {
      phaseIncrement.Set(frequency / sampleRate, duration);
    }

    /** `frequency`: the phase increment `get` reports, times the sample rate. */
    function Frequency(): real
      reads this, phaseIncrement
    {
      phaseIncrement.Get() * sampleRate
    }

    /** `setSampleRate`: the sample rate changes and the frequency is reapplied, so it is unchanged. */
    method SetSampleRate(newSampleRate: real)
      requires newSampleRate != 0.0
      modifies this, phaseIncrement
      ensures sampleRate == newSampleRate && Frequency() == old(Frequency())
      ensures generator == old(generator) && moduloCounter == old(moduloCounter)
      ensures quadPhaseCounter == old(quadPhaseCounter)
      ensures phaseIncrement.remaining == 0
    {
      var frequency := Frequency();
      sampleRate := newSampleRate;
      SetFrequency(frequency, 0);
    }

    /** `setWaveform`. */
    method SetWaveform(waveform: Waveform)
      modifies this
      ensures Waveform() == waveform
      ensures sampleRate == old(sampleRate) && moduloCounter == old(moduloCounter)
      ensures quadPhaseCounter == old(quadPhaseCounter)
    {
      generator := WaveformGenerator(waveform);
    }

    /** `waveform`: the waveform whose generator is in use. */
    function Waveform(): Waveform
      reads this
    {
      GeneratorWaveform(generator)
    }

    /** `reset`: a rising counter restarts at 0, a falling (or still) one at 1. */
    method Reset()
      modifies this
      ensures moduloCounter == (if phaseIncrement.Get() > 0.0 then 0.0 else 1.0)
      ensures sampleRate == old(sampleRate) && generator == old(generator)
      ensures quadPhaseCounter == old(quadPhaseCounter)
    {
      moduloCounter := if phaseIncrement.Get() > 0.0 then 0.0 else 1.0;
    }

    /** `value`: the waveform at the counter. */
    function Value(): real
      reads this
    {
      Apply(generator, moduloCounter)
    }

    /** `quadPhaseValue`: the waveform at the quarter-period-ahead counter. */
    function QuadPhaseValue(): real
      reads this
    {
      Apply(generator, quadPhaseCounter)
    }

    /**
     `increment`: the counter advances by the next value of the phase increment;
     the quadrature counter is a quarter period past it.
     */
    method Increment()
      modifies this, phaseIncrement
      ensures phaseIncrement.Snapshot() == RampingParameter.Step(old(phaseIncrement.Snapshot()))
      ensures moduloCounter == IncrementModuloCounter(old(moduloCounter), phaseIncrement.value)
      ensures quadPhaseCounter == IncrementModuloCounter(moduloCounter, 0.25)
      ensures sampleRate == old(sampleRate) && generator == old(generator)
    {
      var inc := phaseIncrement.FrameValue();
      moduloCounter := IncrementModuloCounter(moduloCounter, inc);
      quadPhaseCounter := IncrementModuloCounter(moduloCounter, 0.25);
    }

    /** `stopRamping`: a frequency ramp jumps to its end. */
    method StopRamping()
      modifies phaseIncrement
      ensures phaseIncrement.Snapshot() == RampingParameter.Stop(old(phaseIncrement.Snapshot()))
    {
      phaseIncrement.StopRamping();
    }
  }

  /**
   While the counter and the increment stay within one period, `value` stays
   in [-1, 1] after any `increment`.
   */
  lemma IncrementKeepsValueBounded(g: Generator, counter: real, inc: real)
    requires 0.0 <= counter < 1.0 && 0.0 < inc < 1.0
    ensures -1.0 <= Apply(g, IncrementModuloCounter(counter, inc)) <= 1.0
  {
    RisingCounterStaysInPeriod(counter, inc);
  }
}
