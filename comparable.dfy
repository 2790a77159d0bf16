/**
 `Comparable.clamped(to:)`: force a value into a closed range by taking
 `min(max(self, lowerBound), upperBound)`. Swift's `max(x, y)` returns `y` when
 `y >= x` and `min(x, y)` returns `y` when `y < x`; both are written out below.
 Values are modelled as reals; a Swift `ClosedRange` cannot be formed with
 `lowerBound > upperBound`, hence the precondition.
 */
module Comparable {

  function Max(x: real, y: real): real { if y >= x then y else x }

  function Min(x: real, y: real): real { if y < x then y else x }

  /**
   The clamped value always lies within the range; a value inside the range is
   returned unchanged, one below it gives the lower bound and one above it the
   upper bound.
   */
  function Clamped(x: real, lower: real, upper: real): (r: real)
    requires lower <= upper
    ensures lower <= r <= upper
    ensures lower <= x <= upper ==> r == x
    ensures x < lower ==> r == lower
    ensures x > upper ==> r == upper
  {
    Min(Max(x, lower), upper)
  }

  /** Clamping twice into the same range is the same as clamping once. */
  lemma ClampedIdempotent(x: real, lower: real, upper: real)
    requires lower <= upper
    ensures Clamped(Clamped(x, lower, upper), lower, upper) == Clamped(x, lower, upper)
  {}
}
