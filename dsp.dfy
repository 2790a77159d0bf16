/**
 `DSP`: the value-mapping helpers shared by the kernels (unipolar and
 bipolar conversion, modulation into a range, the parabolic sine estimate and
 linear interpolation).
 */
module DSP {
  import ConstMath
  import StdAlgorithm

  /** `M_PI`, the constant the parabolic sine is built on. */
  const MathPi: real := 3.14159265358979323846

  /** `unipolarToBipolar`: maps [0, 1] onto [-1, 1], end to end. */
  function UnipolarToBipolar(value: real): (r: real)
    ensures 0.0 <= value <= 1.0 ==> -1.0 <= r <= 1.0
    ensures value == 0.0 ==> r == -1.0
    ensures value == 1.0 ==> r == 1.0
  {
    2.0 * value - 1.0
  }

  /** `bipolarToUnipolar`: maps [-1, 1] onto [0, 1] and undoes `unipolarToBipolar`. */
  function BipolarToUnipolar(value: real): (r: real)
    ensures -1.0 <= value <= 1.0 ==> 0.0 <= r <= 1.0
    ensures UnipolarToBipolar(r) == value
  {
    0.5 * value + 0.5
  }

  /** The conversions are inverse to each other in the other order as well. */
  lemma UnipolarRoundTrip(value: real)
    ensures BipolarToUnipolar(UnipolarToBipolar(value)) == value
  {
    assert 0.5 * (2.0 * value - 1.0) + 0.5 == value;
  }

  /**
   `unipolarModulation`: clamp the modulator to [0, 1] and scale it into
   [minValue, maxValue]; 0 gives the minimum and 1 the maximum.
   */
  function UnipolarModulation(value: real, minValue: real, maxValue: real): (r: real)
    ensures minValue <= maxValue ==> minValue <= r <= maxValue
    ensures value <= 0.0 ==> r == minValue
    ensures value >= 1.0 ==> r == maxValue
  {
    var m := StdAlgorithm.Clamp(value, 0.0, 1.0);
    var span := maxValue - minValue;
    ScaleInRange(m, span);
    assert minValue <= maxValue ==> m * span + minValue <= span + minValue == maxValue;
    m * span + minValue
  }

  /** Scaling by a factor in [0, 1] stays between 0 and the full span. */
  lemma ScaleInRange(m: real, span: real)
    requires 0.0 <= m <= 1.0
    ensures span >= 0.0 ==> 0.0 <= m * span <= span
    ensures span <= 0.0 ==> span <= m * span <= 0.0
  {
    if span >= 0.0 {
      assert m * span <= 1.0 * span;
    } else {
      assert m * (-span) <= 1.0 * (-span);
    }
  }

  /**
   `bipolarModulation`: clamp the modulator to [-1, 1] and scale it into
   [minValue, maxValue]; -1 gives the minimum, 0 the midpoint and 1 the maximum.
   */
  function BipolarModulation(value: real, minValue: real, maxValue: real): (r: real)
    ensures minValue <= maxValue ==> minValue <= r <= maxValue
    ensures value <= -1.0 ==> r == minValue
    ensures value >= 1.0 ==> r == maxValue
    ensures value == 0.0 ==> r == (minValue + maxValue) / 2.0
  {
    var span := maxValue - minValue;
    var mid := span * 0.5;
    var m := StdAlgorithm.Clamp(value, -1.0, 1.0);
    var u := (m + 1.0) / 2.0;
    ScaleInRange(u, span);
    assert m * mid + mid == u * span;
    m * mid + mid + minValue
  }

  /** The inner parabola `B*a + C*a*|a|` of `parabolicSine`. */
  function Parabola(angle: real): real
  {
    (4.0 / MathPi) * angle + (-4.0 / (MathPi * MathPi)) * angle * ConstMath.Abs(angle)
  }

  /** `parabolicSine`: the parabola refined by `P*y*|y| - P*y + y` with `P = 0.225`. */
  function ParabolicSine(angle: real): (r: real)
    ensures angle == 0.0 ==> r == 0.0
  {
    var y := Parabola(angle);
    var py := 0.225 * y;
    py * ConstMath.Abs(y) - py + y
  }

  /** The estimate is an odd function of the angle. */
  lemma ParabolicSineOdd(angle: real)
    ensures ParabolicSine(-angle) == -ParabolicSine(angle)
  {
    ConstMath.AbsSymmetric(angle);
    assert Parabola(-angle) == -Parabola(angle);
    ConstMath.AbsSymmetric(Parabola(angle));
  }

  /** The estimate meets the sine exactly at the quarter turns. */
  lemma ParabolicSineQuarterTurn()
    ensures ParabolicSine(MathPi / 2.0) == 1.0
    ensures ParabolicSine(-MathPi / 2.0) == -1.0
  {
    var a := MathPi / 2.0;
    assert ConstMath.Abs(a) == a;
    assert (4.0 / MathPi) * a == 2.0;
    assert (-4.0 / (MathPi * MathPi)) * a * a == -1.0;
    assert Parabola(a) == 1.0;
    ParabolicSineOdd(a);
    assert -a == -MathPi / 2.0;
  }

  /** On [0, PI] the parabola is `1 - (2a/PI - 1)^2`, so it lies in [0, 1]. */
  lemma ParabolaBounded(angle: real)
    requires 0.0 <= angle <= MathPi
    ensures 0.0 <= Parabola(angle) <= 1.0
  {
    var u := 2.0 * angle / MathPi - 1.0;
    assert -1.0 <= u <= 1.0;
    assert Parabola(angle) == 1.0 - u * u;
    assert u * u <= 1.0 by {
      if u >= 0.0 { assert u * u <= u * 1.0; } else { assert u * u <= (-u) * 1.0; }
    }
  }

  /**
   Over the documented input range [-PI, PI] the estimate stays in [-1, 1] and
   has the sign of the angle.
   */
  lemma ParabolicSineBounded(angle: real)
    requires -MathPi <= angle <= MathPi
    ensures -1.0 <= ParabolicSine(angle) <= 1.0
    ensures angle >= 0.0 ==> ParabolicSine(angle) >= 0.0
    ensures angle <= 0.0 ==> ParabolicSine(angle) <= 0.0
  {
    if angle >= 0.0 {
      NonNegativeHalf(angle);
    } else {
      NonNegativeHalf(-angle);
      ParabolicSineOdd(-angle);
    }
  }

  lemma NonNegativeHalf(angle: real)
    requires 0.0 <= angle <= MathPi
    ensures 0.0 <= ParabolicSine(angle) <= 1.0
  {
    ParabolaBounded(angle);
    var y := Parabola(angle);
    assert ConstMath.Abs(y) == y;
    assert ParabolicSine(angle) == y + 0.225 * y * (y - 1.0);
    ScaleInRange(1.0 - y, y);
    assert 0.225 * y * (y - 1.0) == -(0.225 * ((1.0 - y) * y));
  }

  /**
   `Interpolation::linear`: `partial` selects between the two values, 0 giving
   the first and 1 the second; in between the result lies between them.
   */
  function Linear(partial: real, x0: real, x1: real): (r: real)
    ensures partial == 0.0 ==> r == x0
    ensures partial == 1.0 ==> r == x1
    ensures 0.0 <= partial <= 1.0 && x0 <= x1 ==> x0 <= r <= x1
    ensures 0.0 <= partial <= 1.0 && x1 <= x0 ==> x1 <= r <= x0
  {
    if 0.0 <= partial <= 1.0 then
      ScaleInRange(partial, x1 - x0);
      partial * (x1 - x0) + x0
    else
      partial * (x1 - x0) + x0
  }
}
