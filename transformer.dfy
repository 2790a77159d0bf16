/**
 `Parameters::Transformer`: the stateless mappings between the value a host
 sees and the value a parameter keeps on the render thread.
 */
module Transformer {
  import StdAlgorithm

  /** True when `x` has no fractional part. */
  predicate IsIntegral(x: real) { x == x.Floor as real }

  /** `passthru`: the identity. */
  function Passthru(value: real): (r: real)
    ensures r == value
  {
    value
  }

  /** `percentageIn`: 0-100 into 0.0-1.0, clamped. */
  function PercentageIn(value: real): (r: real)
    ensures 0.0 <= r <= 1.0
    ensures 0.0 <= value <= 100.0 ==> r * 100.0 == value
    ensures value < 0.0 ==> r == 0.0
    ensures value > 100.0 ==> r == 1.0
  {
    StdAlgorithm.Clamp(value / 100.0, 0.0, 1.0)
  }

  /** `percentageOut`: 0.0-1.0 into 0-100. */
  function PercentageOut(value: real): (r: real)
    ensures 0.0 <= value <= 1.0 ==> 0.0 <= r <= 100.0
  {
    value * 100.0
  }

  /** `percentageOut` undoes `percentageIn` on 0-100 ... */
  lemma PercentageRoundTrip(x: real)
    requires 0.0 <= x <= 100.0
    ensures PercentageOut(PercentageIn(x)) == x
  {}

  /** ... and `percentageIn` undoes `percentageOut` on 0.0-1.0. */
  lemma PercentageRoundTripInternal(y: real)
    requires 0.0 <= y <= 1.0
    ensures PercentageIn(PercentageOut(y)) == y
  {}

  /** `boolIn`: below one half is false (0.0), anything else true (1.0). */
  function BoolIn(value: real): (r: real)
    ensures r == 0.0 || r == 1.0
    ensures r == 0.0 <==> value < 0.5
  {
    if value < 0.5 then 0.0 else 1.0
  }

  /**
   `rounded`: `std::round`, the nearest integer with halfway cases rounded away
   from zero.
   */
  function Rounded(value: real): (r: real)
    ensures IsIntegral(r)
    ensures value >= 0.0 ==> 0.0 <= r && value - 0.5 < r <= value + 0.5
    ensures value < 0.0 ==> r <= 0.0 && value - 0.5 <= r < value + 0.5
  {
    if value >= 0.0 then
      var f := (value + 0.5).Floor;
      FloorIsIntegral(f);
      f as real
    else
      var f := (0.5 - value).Floor;
      FloorIsIntegral(-f);
      -(f as real)
  }

  lemma FloorIsIntegral(n: int)
    ensures IsIntegral(n as real)
  {
    assert (n as real).Floor == n;
  }

  /** An integral value rounds to itself ... */
  lemma RoundedIntegral(n: int)
    ensures Rounded(n as real) == n as real
  {
    if n >= 0 {
      assert (n as real + 0.5).Floor == n;
    } else {
      assert (0.5 - n as real).Floor == -n;
    }
  }

  /** ... so `rounded` is idempotent. */
  lemma RoundedIdempotent(value: real)
    ensures Rounded(Rounded(value)) == Rounded(value)
  {
    RoundedIntegral(Rounded(value).Floor);
  }
}
