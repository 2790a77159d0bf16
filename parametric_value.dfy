/**
 `ParametricValue`: an immutable value in [0, 1]. Every initialiser clamps its
 argument into [0, 1] with `Comparable.clamped(to: 0...1)`.
 */
module ParametricValue {
  import Comparable

  type Unit = x: real | 0.0 <= x <= 1.0

  datatype ParametricValue = ParametricValue(value: Unit) {

    /** `squared`: a new value built from `value * value`. */
    function Squared(): (r: ParametricValue)
      ensures r.value <= value
      ensures value == 0.0 ==> r.value == 0.0
      ensures value == 1.0 ==> r.value == 1.0
    {
      CubeBound(value);
      Make(value * value)
    }

    /** `cubed`: a new value built from `value * value * value`. */
    function Cubed(): (r: ParametricValue)
      ensures r.value <= value
      ensures value == 0.0 ==> r.value == 0.0
      ensures value == 1.0 ==> r.value == 1.0
    {
      CubeBound(value);
      Make(value * value * value)
    }
  }

  lemma CubeBound(v: real)
    requires 0.0 <= v <= 1.0
    ensures 0.0 <= v * v * v <= v * v <= v
  {
    assert 0.0 <= v * v <= v;
    assert v * v * v <= v * v * 1.0;
  }

  /** `init(_:)`: clamp into [0, 1]; values already there are kept. */
  function Make(a: real): (r: ParametricValue)
    ensures 0.0 <= r.value <= 1.0
    ensures a < 0.0 ==> r.value == 0.0
    ensures a > 1.0 ==> r.value == 1.0
    ensures 0.0 <= a <= 1.0 ==> r.value == a
  {
    ParametricValue(Comparable.Clamped(a, 0.0, 1.0))
  }

  /** `init(floatLiteral:)` delegates to `init(_:)`. */
  function FromFloatLiteral(a: real): (r: ParametricValue)
    ensures r == Make(a)
  {
    Make(a)
  }
}
