/** Scalar building blocks the renderer borrows from Rust's standard library:
    the square root (as an abstract function), `f64::min`, `f64::abs`,
    `powf(_, 5.0)` and 32-bit unsigned integers with wrap-around. */
module Numeric {

  /** `sqrt` behaves as `f64::sqrt` on the non-negative reals. Nothing is
      assumed about negative arguments, where the source gets NaN; every
      caller handles that case itself. */
  ghost predicate IsSqrt(sqrt: real -> real) {
    forall d: real :: 0.0 <= d ==> 0.0 <= sqrt(d) && sqrt(d) * sqrt(d) == d
  }

  /** On the non-negative reals, squaring preserves and reflects order. */
  lemma SquareMonotone(a: real, b: real)
    requires 0.0 <= a && 0.0 <= b
    ensures a <= b <==> a * a <= b * b
  {
    var aa, ab, bb := a * a, a * b, b * b;
    if a <= b {
      assert aa <= ab;
      assert ab <= bb;
    } else {
      assert (a - b) * a > 0.0;
      assert bb <= ab;
      assert ab < aa;
    }
  }

  /** The non-negative square root is unique. */
  lemma SqrtUnique(sqrt: real -> real, d: real, s: real)
    requires IsSqrt(sqrt)
    requires 0.0 <= s && s * s == d
    ensures sqrt(d) == s
  {
    SquareMonotone(sqrt(d), s);
    SquareMonotone(s, sqrt(d));
  }

  /** The square root is monotone on the non-negative reals. */
  lemma SqrtMonotone(sqrt: real -> real, d1: real, d2: real)
    requires IsSqrt(sqrt)
    requires 0.0 <= d1 <= d2
    ensures sqrt(d1) <= sqrt(d2)
  {
    SquareMonotone(sqrt(d1), sqrt(d2));
  }

  /** A square root of a number at most 1 is at most 1. */
  lemma SqrtAtMostOne(sqrt: real -> real, d: real)
    requires IsSqrt(sqrt)
    requires 0.0 <= d <= 1.0
    ensures 0.0 <= sqrt(d) <= 1.0
  {
    SqrtUnique(sqrt, 1.0, 1.0);
    SqrtMonotone(sqrt, d, 1.0);
  }

  /** `f64::abs`. */
  function Abs(x: real): (r: real)
    ensures 0.0 <= r && (r == x || r == -x)
  {
    if x < 0.0 then -x else x
  }

  /** `f64::min` on numbers (NaN is not modelled). */
  function Min(a: real, b: real): (r: real)
    ensures r <= a && r <= b && (r == a || r == b)
  {
    if a <= b then a else b
  }

  /** `powf(x, 5.0)`: an integral exponent, so the power is exact. */
  function Pow5(x: real): real {
    x * x * x * x * x
  }

  /** The fifth power maps [0, 1] into [0, 1]. */
  lemma Pow5UnitInterval(x: real)
    requires 0.0 <= x <= 1.0
    ensures 0.0 <= Pow5(x) <= 1.0
  {
    assert 0.0 <= x * x <= x;
    assert 0.0 <= x * x * x <= x * x;
    assert 0.0 <= x * x * x * x <= x * x * x;
    assert 0.0 <= x * x * x * x * x <= x * x * x * x;
  }

  /** Scaling a non-negative number by a factor in [0, 1] keeps it between
      0 and itself. */
  lemma ScaleWithinUnit(k: real, p: real)
    requires 0.0 <= k && 0.0 <= p <= 1.0
    ensures 0.0 <= k * p <= k
  {
    var kp, kq := k * p, k * (1.0 - p);
    assert 0.0 <= kp;
    assert 0.0 <= kq;
    assert kp + kq == k;
  }

  const U32_LIMIT: int := 0x1_0000_0000

  /** Rust's `u32`. */
  type U32 = x: int | 0 <= x < 0x1_0000_0000

  /** Wrap-around of `u32` arithmetic (a release build; a debug build panics). */
  function WrapU32(x: int): (r: U32)
    ensures 0 <= x < U32_LIMIT ==> r == x
    ensures (x - r) % U32_LIMIT == 0
  {
    x % U32_LIMIT
  }
}
