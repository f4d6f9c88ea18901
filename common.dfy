/** The interval helpers every other component relies on (src/common.rs). */
module Common {

  /** `in_range`: x lies strictly inside the open interval (min, max). */
  predicate InRange(min: real, x: real, max: real) {
    x > min && x < max
  }

  /** Both ends of the interval are excluded. */
  lemma InRangeExcludesEnds(min: real, max: real)
    ensures !InRange(min, min, max) && !InRange(min, max, max)
  {
  }

  /** An interval whose lower end is not below its upper end holds nothing. */
  lemma InRangeEmpty(min: real, max: real)
    requires min >= max
    ensures forall x: real :: !InRange(min, x, max)
  {
  }

  /** `clamp`: the value of x forced into [min, max]. */
  function Clamp(min: real, x: real, max: real): (r: real)
    ensures min <= max ==> min <= r <= max
    ensures min <= x <= max ==> r == x
    ensures x < min ==> r == min
    ensures min <= x && x > max ==> r == max
  {
    if x < min then min
    else if x > max then max
    else x
  }

  /** Clamping twice is clamping once. */
  lemma ClampIdempotent(min: real, x: real, max: real)
    requires min <= max
    ensures Clamp(min, Clamp(min, x, max), max) == Clamp(min, x, max)
  {
  }

  /** Clamping never reverses the order of two values. */
  lemma ClampMonotone(min: real, x: real, y: real, max: real)
    requires min <= max
    requires x <= y
    ensures Clamp(min, x, max) <= Clamp(min, y, max)
  {
  }
}
