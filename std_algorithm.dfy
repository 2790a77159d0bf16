/**
 The three `<algorithm>` helpers the DSP headers rely on, written the way the
 C++ standard library defines them (with `operator<` as the comparison).
 */
module StdAlgorithm {

  /** `std::min(a, b)`: `b < a ? b : a`. */
  function Min(a: int, b: int): (r: int)
    ensures r <= a && r <= b && (r == a || r == b)
  {
    if b < a then b else a
  }

  /** `std::max(a, b)`: `a < b ? b : a`. */
  function Max(a: int, b: int): (r: int)
    ensures r >= a && r >= b && (r == a || r == b)
  {
    if a < b then b else a
  }

  /**
   `std::clamp(v, lo, hi)`: `v < lo ? lo : hi < v ? hi : v`. The standard
   leaves `hi < lo` undefined, hence the precondition.
   */
  function Clamp(v: real, lo: real, hi: real): (r: real)
    requires lo <= hi
    ensures lo <= r <= hi
    ensures lo <= v <= hi ==> r == v
    ensures v < lo ==> r == lo
    ensures hi < v ==> r == hi
  {
    if v < lo then lo else if hi < v then hi else v
  }
}
