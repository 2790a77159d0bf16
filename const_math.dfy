/**
 `ConstMath`: the compile-time arithmetic helpers that are exact on paper
 (absolute value, angle normalisation, floor and ceiling, parity, integral
 powers, decimal mantissa, table filling).
 */
module ConstMath {

  /** `Constants<T>::PI` as written in the header. */
  const Pi: real := 3.1415926535897932384626433832795028841972
  const TwoPi: real := 2.0 * Pi

  /** True when `x` has no fractional part. */
  predicate IsIntegral(x: real) { x == x.Floor as real }

  /**
   `make_array`: a table of `n` entries where entry `i` is `gen(i)`, filled in
   index order by a loop.
   */
  method MakeArray<T(0)>(n: nat, gen: nat -> T) returns (table: array<T>)
    ensures fresh(table) && table.Length == n
    ensures forall i :: 0 <= i < n ==> table[i] == gen(i)
  {
    table := new T[n];
    var i := 0;
    while i != n
      invariant 0 <= i <= n
      invariant forall k :: 0 <= k < i ==> table[k] == gen(k)
    {
      table[i] := gen(i);
      i := i + 1;
    }
  }

  /** `abs`: `x == 0 ? 0 : x < 0 ? -x : x`. */
  function Abs(x: real): (r: real)
    ensures r >= 0.0
    ensures r == x || r == -x
  {
    if x == 0.0 then 0.0 else if x < 0.0 then -x else x
  }

  /** `abs` ignores the sign of its argument. */
  lemma AbsSymmetric(x: real)
    ensures Abs(-x) == Abs(x)
  {}

  /** The number of 2*PI steps `normalizedRadians` takes before it stops. */
  function Turns(theta: real): nat
  {
    if theta > Pi then ((theta - Pi) / TwoPi).Floor + 1
    else if theta <= -Pi then ((-Pi - theta) / TwoPi).Floor + 1
    else 0
  }

  /**
   `normalizedRadians`: add or subtract 2*PI until the angle lies in (-PI, PI].
   The result differs from `theta` by a whole number of turns.
   */
  function NormalizedRadians(theta: real): (r: real)
    ensures -Pi < r <= Pi
    ensures IsIntegral((r - theta) / TwoPi)
    decreases Turns(theta)
  {
    if theta <= -Pi then
      StepLowers(theta, theta + TwoPi);
      var r := NormalizedRadians(theta + TwoPi);
      ShiftIntegral((r - (theta + TwoPi)) / TwoPi, 1);
      r
    else if theta > Pi then
      StepLowers(theta, theta - TwoPi);
      var r := NormalizedRadians(theta - TwoPi);
      ShiftIntegral((r - (theta - TwoPi)) / TwoPi, -1);
      r
    else
      assert (theta - theta) / TwoPi == 0.0;
      theta
  }

  lemma ShiftIntegral(x: real, k: int)
    requires IsIntegral(x)
    ensures IsIntegral(x + k as real)
  {
    assert (x + k as real).Floor == x.Floor + k;
  }

  /** One step of `normalizedRadians` moves the angle one turn closer to the range. */
  lemma StepLowers(theta: real, next: real)
    requires (theta <= -Pi && next == theta + TwoPi) || (theta > Pi && next == theta - TwoPi)
    ensures Turns(next) < Turns(theta)
  {
    if theta > Pi {
      var q := (theta - Pi) / TwoPi;
      assert (next - Pi) / TwoPi == q - 1.0;
    } else {
      var q := (-Pi - theta) / TwoPi;
      assert (-Pi - next) / TwoPi == q - 1.0;
    }
  }

  /** An angle already in (-PI, PI] is left alone. */
  lemma NormalizedRadiansInRange(theta: real)
    requires -Pi < theta <= Pi
    ensures NormalizedRadians(theta) == theta
  {}

  /** `static_cast<long long>(x)`: truncation toward zero. */
  function Truncate(x: real): (r: int)
    ensures x >= 0.0 ==> r as real <= x < r as real + 1.0
    ensures x < 0.0 ==> r as real - 1.0 < x <= r as real
  {
    if x >= 0.0 then x.Floor else -((-x).Floor)
  }

  /**
   The cast is defined in C++ only while the truncated value fits the target
   type: a bound `b` (2^63 for `long long`, 2^31 for `int`) on `x` keeps the
   truncation inside (-b, b), where the unbounded model and the cast agree.
   */
  lemma TruncateFitsWidth(x: real, b: nat)
    requires -(b as real) < x < b as real
    ensures -(b as int) < Truncate(x) < b
  {}

  /** Truncation keeps a whole number, and is the floor of a non-negative number. */
  lemma TruncateWholeAndFloor(x: real)
    ensures x == x.Floor as real ==> Truncate(x) == x.Floor
    ensures x >= 0.0 ==> Truncate(x) == x.Floor && 0.0 <= x - Truncate(x) as real < 1.0
  {}

  /**
   `floor`: truncate, then step down by one when the truncation overshoots.
   The result is the largest integer not above `x`.
   */
  function Floor(x: real): (r: int)
    ensures r as real <= x < r as real + 1.0
  {
    var t := Truncate(x);
    t - (if t as real > x then 1 else 0)
  }

  /**
   `ceil`: truncate, then step up by one when the truncation undershoots.
   The result is the smallest integer not below `x`.
   */
  function Ceil(x: real): (r: int)
    ensures r as real - 1.0 < x <= r as real
  {
    var t := Truncate(x);
    t + (if (t as real) < x then 1 else 0)
  }

  /** C++ `%` on integers: the remainder takes the sign of the dividend. */
  function Remainder(a: int, b: int): (r: int)
    requires b > 0
    ensures -b < r < b
    ensures a >= 0 ==> r == a % b
  {
    if a >= 0 then a % b else -((-a) % b)
  }

  /** `is_even`: `x % 2 == 0` with C++ remainder; it agrees with parity on every integer. */
  function IsEven(x: int): (r: bool)
    ensures r <==> x % 2 == 0
  {
    Remainder(x, 2) == 0
  }

  /** The reference power: `a` multiplied by itself `n` times. */
  function Power(a: real, n: nat): real
  {
    if n == 0 then 1.0 else a * Power(a, n - 1)
  }

  /** `Integer(1) << n` with an unbounded integer. */
  function ShiftLeftOne(n: nat): nat
  {
    if n == 0 then 1 else 2 * ShiftLeftOne(n - 1)
  }

  /**
   `ipow`: power by repeated squaring, with a shift for base 2 and a reciprocal
   for negative exponents. It equals the reference power `a^n`, and `1 / a^-n`
   for negative `n`.
   */
  function IPow(a: real, n: int): (r: real)
    requires n >= 0 || a != 0.0
    ensures n >= 0 ==> r == Power(a, n)
    ensures n < 0 ==> Power(a, -n) != 0.0 && r == 1.0 / Power(a, -n)
    decreases if n < 0 then 1 - 2 * n else n
  {
    if n < 0 then
      PowerNonZero(a, -n);
      1.0 / IPow(a, -n)
    else if n == 0 then 1.0
    else if n == 1 then a
    else if a == 2.0 then
      ShiftIsPower(n);
      ShiftLeftOne(n) as real
    else if IsEven(n) then
      PowerOfSquare(a, n / 2);
      IPow(a * a, n / 2)
    else
      PowerOfSquare(a, (n - 1) / 2);
      a * IPow(a * a, (n - 1) / 2)
  }

  lemma {:induction false} PowerNonZero(a: real, n: nat)
    requires a != 0.0
    ensures Power(a, n) != 0.0
  {
    if n > 0 {
      PowerNonZero(a, n - 1);
    }
  }

  lemma {:induction false} ShiftIsPower(n: nat)
    ensures ShiftLeftOne(n) as real == Power(2.0, n)
  {
    if n > 0 {
      ShiftIsPower(n - 1);
    }
  }

  /**
   `Integer(1) << n` stays below `2^(w-1)`, the bound of a signed `w`-bit
   `Integer`, exactly when `n < w - 1`; the model's unbounded shift equals
   the source's only in that range.
   */
  lemma {:induction false} ShiftFitsWidth(n: nat, w: nat)
    requires w >= 1
    ensures ShiftLeftOne(n) < ShiftLeftOne(w - 1) <==> n < w - 1
    decreases n + w
  {
    if n > 0 && w - 1 > 0 {
      ShiftFitsWidth(n - 1, w - 1);
    } else if n > 0 {
      ShiftPositive(n - 1);
    } else if w - 1 > 0 {
      ShiftPositive(w - 2);
    }
  }

  lemma {:induction false} ShiftPositive(n: nat)
    ensures ShiftLeftOne(n) >= 1
  {
    if n > 0 {
      ShiftPositive(n - 1);
    }
  }

  /** Squaring the base halves the exponent: `(a*a)^m == a^(2m)`. */
  lemma {:induction false} PowerOfSquare(a: real, m: nat)
    ensures Power(a * a, m) == Power(a, 2 * m)
  {
    if m > 0 {
      PowerOfSquare(a, m - 1);
      calc {
        Power(a, 2 * m);
        a * Power(a, 2 * m - 1);
        a * (a * Power(a, 2 * (m - 1)));
        (a * a) * Power(a * a, m - 1);
        Power(a * a, m);
      }
    }
  }

  /** A measure for `mantissa`: how far `x` is from [1, 10]. */
  function MantissaSteps(x: real): nat
    requires x > 0.0
  {
    if x < 1.0 then (1.0 / x).Floor else if x > 10.0 then x.Floor else 0
  }

  /**
   `detail::mantissa`: scale by ten until the value lies in [1, 10]. The
   recursion only ends for positive `x`.
   */
  function Mantissa(x: real): (r: real)
    requires x > 0.0
    ensures 1.0 <= r <= 10.0
    decreases MantissaSteps(x)
  {
    if x < 1.0 then
      MantissaScaleUp(x);
      Mantissa(x * 10.0)
    else if x > 10.0 then
      MantissaScaleDown(x);
      Mantissa(x / 10.0)
    else x
  }

  /** `v * 10^e` for an integer `e`, by repeated multiplication or division by ten. */
  function ScaleBy10(v: real, e: int): real
    decreases if e < 0 then -e else e
  {
    if e == 0 then v
    else if e > 0 then ScaleBy10(v * 10.0, e - 1)
    else ScaleBy10(v / 10.0, e + 1)
  }

  /** Scaling commutes with multiplying by ten. */
  lemma {:induction false} ScaleBy10Linear(v: real, e: int)
    ensures ScaleBy10(v * 10.0, e) == 10.0 * ScaleBy10(v, e)
    decreases if e < 0 then -e else e
  {
    if e > 0 {
      ScaleBy10Linear(v * 10.0, e - 1);
    } else if e < 0 {
      ScaleBy10Linear(v / 10.0, e + 1);
      assert (v / 10.0) * 10.0 == v;
      assert (v * 10.0) / 10.0 == v;
    }
  }

  /** One more power of ten is ten times as much, for every integer exponent. */
  lemma ScaleBy10Step(v: real, e: int)
    ensures ScaleBy10(v, e + 1) == 10.0 * ScaleBy10(v, e)
  {
    if e + 1 > 0 {
      ScaleBy10Linear(v, e);
    } else {
      ScaleBy10Linear(v / 10.0, e + 1);
      assert (v / 10.0) * 10.0 == v;
    }
  }

  /** On natural exponents it is the reference power. */
  lemma {:induction false} ScaleBy10IsPower(v: real, n: nat)
    ensures ScaleBy10(v, n) == v * Power(10.0, n)
    decreases n
  {
    if n > 0 {
      ScaleBy10IsPower(v * 10.0, n - 1);
      assert (v * 10.0) * Power(10.0, n - 1) == v * (10.0 * Power(10.0, n - 1));
    }
  }

  /**
   `detail::find_exponent(x, y)`: the decimal exponent `mantissa` takes off,
   counted from `y`. The recursion only ends for positive `x`.
   */
  function FindExponent(x: real, y: int): int
    requires x > 0.0
    decreases MantissaSteps(x)
  {
    if x < 1.0 then
      MantissaScaleUp(x);
      FindExponent(x * 10.0, y - 1)
    else if x > 10.0 then
      MantissaScaleDown(x);
      FindExponent(x / 10.0, y + 1)
    else y
  }

  /**
   The split `log` relies on: the mantissa scaled by ten to the exponent found
   from `y` on, less `y`, gives back `x`; so `x == mantissa(x) * 10^find_exponent(x, 0)`.
   */
  lemma {:induction false} MantissaTimesExponent(x: real, y: int)
    requires x > 0.0
    ensures ScaleBy10(Mantissa(x), FindExponent(x, y) - y) == x
    decreases MantissaSteps(x)
  {
    if x < 1.0 {
      MantissaScaleUp(x);
      MantissaTimesExponent(x * 10.0, y - 1);
      ScaleBy10Step(Mantissa(x), FindExponent(x, y) - y);
    } else if x > 10.0 {
      MantissaScaleDown(x);
      MantissaTimesExponent(x / 10.0, y + 1);
      ScaleBy10Step(Mantissa(x), FindExponent(x, y) - y - 1);
    }
  }

  /** With `y == 0`: every positive `x` is its mantissa, in [1, 10], times a power of ten. */
  lemma MantissaDecomposes(x: real)
    requires x > 0.0
    ensures x == ScaleBy10(Mantissa(x), FindExponent(x, 0))
    ensures 1.0 <= Mantissa(x) <= 10.0
  {
    MantissaTimesExponent(x, 0);
  }

  lemma MantissaScaleUp(x: real)
    requires 0.0 < x < 1.0
    ensures MantissaSteps(x * 10.0) < MantissaSteps(x)
  {
    var y := x * 10.0;
    assert 1.0 / x > 1.0;
    if y < 1.0 {
      assert 1.0 / y == (1.0 / x) / 10.0;
    }
  }

  lemma MantissaScaleDown(x: real)
    requires x > 10.0
    ensures MantissaSteps(x / 10.0) < MantissaSteps(x)
  {
    var y := x / 10.0;
    assert y > 1.0;
    if y > 10.0 {
      assert y.Floor <= x.Floor;
    }
  }
}
