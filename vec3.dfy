/** Three-component vectors used as points, directions and colours
    (src/vec3.rs). Components are modelled as reals. */
module Vectors {
  import opened Numeric
  import opened Optional

  datatype Vec3 = Vec3(x: real, y: real, z: real)

  /** A point is a vector (`Point3` in the source). */
  type Point3 = Vec3

  const ZERO: Vec3 := Vec3(0.0, 0.0, 0.0)

  /** The threshold of `is_near_zero`. */
  const NEAR_ZERO_EPS: real := 0.00000001

  // ---------------------------------------------------------------------
  // Componentwise operators (`Neg`, `Add`, `Sub`, `Mul`, `Div`)
  // ---------------------------------------------------------------------

  function Neg(v: Vec3): Vec3 {
    Vec3(-v.x, -v.y, -v.z)
  }

  function Add(u: Vec3, v: Vec3): Vec3 {
    Vec3(u.x + v.x, u.y + v.y, u.z + v.z)
  }

  function Sub(u: Vec3, v: Vec3): Vec3 {
    Vec3(u.x - v.x, u.y - v.y, u.z - v.z)
  }

  /** `Vec3 * Vec3`: the componentwise product. */
  function Mul(u: Vec3, v: Vec3): Vec3 {
    Vec3(u.x * v.x, u.y * v.y, u.z * v.z)
  }

  /** `Vec3 * f32` and `f32 * Vec3`: both multiply every component by c. */
  function Scale(v: Vec3, c: real): Vec3 {
    Vec3(v.x * c, v.y * c, v.z * c)
  }

  /** `Vec3 / Vec3`; a zero component would give an IEEE infinity or NaN. */
  function Div(u: Vec3, v: Vec3): Vec3
    requires v.x != 0.0 && v.y != 0.0 && v.z != 0.0
  {
    Vec3(u.x / v.x, u.y / v.y, u.z / v.z)
  }

  /** `Vec3 / f32`. */
  function DivScalar(v: Vec3, d: real): Vec3
    requires d != 0.0
  {
    Vec3(v.x / d, v.y / d, v.z / d)
  }

  lemma AddSubCancel(a: Vec3, b: Vec3)
    ensures Sub(Add(a, b), b) == a
    ensures Add(Sub(a, b), b) == a
  {
  }

  lemma SubIsAddNeg(a: Vec3, b: Vec3)
    ensures Sub(a, b) == Add(a, Neg(b))
    ensures Neg(Neg(a)) == a
  {
  }

  lemma DivScalarUndoesScale(v: Vec3, c: real)
    requires c != 0.0
    ensures DivScalar(Scale(v, c), c) == v
    ensures Scale(DivScalar(v, c), c) == v
  {
  }

  lemma DivUndoesMul(u: Vec3, v: Vec3)
    requires v.x != 0.0 && v.y != 0.0 && v.z != 0.0
    ensures Div(Mul(u, v), v) == u
  {
  }

  // ---------------------------------------------------------------------
  // Compound assignment: `*self = *self op v` overwrites a Vec3 in place
  // ---------------------------------------------------------------------

  /** A mutable Vec3 location, the `&mut self` of the `*Assign` operators. */
  class Vec3Place {
    var value: Vec3

    constructor (init: Vec3)
      ensures value == init
    {
      value := init;
    }

    method AddAssign(v: Vec3)
      modifies this
      ensures value == Add(old(value), v)
    {
      value := Add(value, v);
    }

    method SubAssign(v: Vec3)
      modifies this
      ensures value == Sub(old(value), v)
    {
      value := Sub(value, v);
    }

    method MulAssign(v: Vec3)
      modifies this
      ensures value == Mul(old(value), v)
    {
      value := Mul(value, v);
    }

    method MulAssignScalar(c: real)
      modifies this
      ensures value == Scale(old(value), c)
    {
      value := Scale(value, c);
    }

    method DivAssign(v: Vec3)
      requires v.x != 0.0 && v.y != 0.0 && v.z != 0.0
      modifies this
      ensures value == Div(old(value), v)
    {
      value := Div(value, v);
    }

    method DivAssignScalar(d: real)
      requires d != 0.0
      modifies this
      ensures value == DivScalar(old(value), d)
    {
      value := DivScalar(value, d);
    }
  }

  // ---------------------------------------------------------------------
  // Products, lengths and directions
  // ---------------------------------------------------------------------

  function Dot(u: Vec3, v: Vec3): real {
    u.x * v.x + u.y * v.y + u.z * v.z
  }

  function Cross(u: Vec3, v: Vec3): Vec3 {
    Vec3(u.y * v.z - u.z * v.y,
         u.z * v.x - u.x * v.z,
         u.x * v.y - u.y * v.x)
  }

  /** `length_squared`: the sum of the squared components, never negative. */
  function LengthSquared(v: Vec3): (r: real)
    ensures 0.0 <= r
  {
    v.x * v.x + v.y * v.y + v.z * v.z
  }

  /** `length`: the square root of `length_squared`. */
  function Length(v: Vec3, sqrt: real -> real): (r: real)
    requires IsSqrt(sqrt)
    ensures 0.0 <= r && r * r == LengthSquared(v)
  {
    sqrt(LengthSquared(v))
  }

  /** `unit`: v divided by its length. The source has no guard for the zero
      vector (it would produce NaN components), so it is excluded here. */
  function Unit(v: Vec3, sqrt: real -> real): (r: Vec3)
    requires IsSqrt(sqrt)
    requires LengthSquared(v) > 0.0
    ensures LengthSquared(r) == 1.0
    ensures Dot(r, v) > 0.0 && Cross(r, v) == ZERO
  {
    var len := Length(v, sqrt);
    UnitProperties(v, len);
    DivScalar(v, len)
  }

  lemma UnitProperties(v: Vec3, len: real)
    requires 0.0 < LengthSquared(v) && 0.0 <= len && len * len == LengthSquared(v)
    ensures len != 0.0
    ensures LengthSquared(DivScalar(v, len)) == 1.0
    ensures Dot(DivScalar(v, len), v) > 0.0 && Cross(DivScalar(v, len), v) == ZERO
  {
    assert len != 0.0;
    var inv := 1.0 / len;
    assert 0.0 < inv && len * inv == 1.0;
    assert DivScalar(v, len) == Scale(v, inv);
    ScaleProducts(v, inv);
    var sq := len * len;
    assert inv * inv * sq == (inv * len) * (inv * len);
  }

  /** How the products of a scaled vector relate to those of the vector. */
  lemma ScaleProducts(v: Vec3, k: real)
    ensures LengthSquared(Scale(v, k)) == k * k * LengthSquared(v)
    ensures Dot(Scale(v, k), v) == k * LengthSquared(v)
    ensures Cross(Scale(v, k), v) == ZERO
  {
    var w := Scale(v, k);
    assert w.x * w.x == k * k * (v.x * v.x);
    assert w.y * w.y == k * k * (v.y * v.y);
    assert w.z * w.z == k * k * (v.z * v.z);
    assert w.y * v.z == v.y * (k * v.z) && w.z * v.y == v.y * (k * v.z);
    assert w.z * v.x == v.z * (k * v.x) && w.x * v.z == v.z * (k * v.x);
    assert w.x * v.y == v.x * (k * v.y) && w.y * v.x == v.x * (k * v.y);
  }

  /** `is_near_zero`: every component is below 1e-8 in absolute value. */
  predicate IsNearZero(v: Vec3) {
    Abs(v.x) < NEAR_ZERO_EPS && Abs(v.y) < NEAR_ZERO_EPS && Abs(v.z) < NEAR_ZERO_EPS
  }

  /** A near-zero vector is short, and a short enough vector is near zero. */
  lemma NearZeroMeansShort(v: Vec3)
    ensures IsNearZero(v) ==> LengthSquared(v) < 3.0 * NEAR_ZERO_EPS * NEAR_ZERO_EPS
    ensures LengthSquared(v) < NEAR_ZERO_EPS * NEAR_ZERO_EPS ==> IsNearZero(v)
  {
    var ee := NEAR_ZERO_EPS * NEAR_ZERO_EPS;
    var xx, yy, zz := v.x * v.x, v.y * v.y, v.z * v.z;
    ComponentNearZero(v.x);
    ComponentNearZero(v.y);
    ComponentNearZero(v.z);
    assert 0.0 <= xx && 0.0 <= yy && 0.0 <= zz;
    assert LengthSquared(v) == xx + yy + zz;
  }

  lemma ComponentNearZero(a: real)
    ensures Abs(a) < NEAR_ZERO_EPS <==> a * a < NEAR_ZERO_EPS * NEAR_ZERO_EPS
  {
    var m := Abs(a);
    assert m * m == a * a;
    SquareMonotone(NEAR_ZERO_EPS, m);
  }

  /** `reflect`: mirror v in the plane whose normal is `normal`. */
  function Reflect(v: Vec3, normal: Vec3): Vec3 {
    Sub(v, Scale(normal, 2.0 * Dot(v, normal)))
  }

  /** `refract`, with its square root supplied. */
  function Refract(v: Vec3, normal: Vec3, refractiveRatio: real, sqrt: real -> real): Vec3
    requires IsSqrt(sqrt)
  {
    var cosTheta := Min(Dot(Neg(v), normal), 1.0);
    var perp := Scale(Add(v, Scale(normal, cosTheta)), refractiveRatio);
    var parallel := Scale(normal, -sqrt(Abs(1.0 - LengthSquared(perp))));
    Add(perp, parallel)
  }

  // ---------------------------------------------------------------------
  // Algebraic facts
  // ---------------------------------------------------------------------

  lemma DotSymmetric(u: Vec3, v: Vec3)
    ensures Dot(u, v) == Dot(v, u)
  {
  }

  lemma DotSelfIsLengthSquared(v: Vec3)
    ensures Dot(v, v) == LengthSquared(v)
  {
  }

  /** Dot product distributes over a scaled sum. */
  lemma DotAddScale(u: Vec3, n: Vec3, c: real, w: Vec3)
    ensures Dot(Add(u, Scale(n, c)), w) == Dot(u, w) + c * Dot(n, w)
  {
    assert (u.x + n.x * c) * w.x == u.x * w.x + c * (n.x * w.x);
    assert (u.y + n.y * c) * w.y == u.y * w.y + c * (n.y * w.y);
    assert (u.z + n.z * c) * w.z == u.z * w.z + c * (n.z * w.z);
  }

  /** `cross(u, v)` is orthogonal to both u and v. */
  lemma CrossOrthogonal(u: Vec3, v: Vec3)
    ensures Dot(Cross(u, v), u) == 0.0
    ensures Dot(Cross(u, v), v) == 0.0
  {
    var c := Cross(u, v);
    assert c.x * u.x == u.y * v.z * u.x - u.z * v.y * u.x;
    assert c.y * u.y == u.z * v.x * u.y - u.x * v.z * u.y;
    assert c.z * u.z == u.x * v.y * u.z - u.y * v.x * u.z;
    assert c.x * v.x == u.y * v.z * v.x - u.z * v.y * v.x;
    assert c.y * v.y == u.z * v.x * v.y - u.x * v.z * v.y;
    assert c.z * v.z == u.x * v.y * v.z - u.y * v.x * v.z;
  }

  /** The squared length of a scaled sum, expanded. */
  lemma LengthSquaredAddScale(u: Vec3, n: Vec3, c: real)
    ensures LengthSquared(Add(u, Scale(n, c)))
         == LengthSquared(u) + 2.0 * c * Dot(u, n) + c * c * LengthSquared(n)
  {
    var w := Add(u, Scale(n, c));
    assert w.x * w.x == u.x * u.x + 2.0 * c * (u.x * n.x) + c * c * (n.x * n.x);
    assert w.y * w.y == u.y * u.y + 2.0 * c * (u.y * n.y) + c * c * (n.y * n.y);
    assert w.z * w.z == u.z * u.z + 2.0 * c * (u.z * n.z) + c * c * (n.z * n.z);
  }

  /** Reflection about a unit normal negates the normal component. */
  lemma ReflectNegatesNormalComponent(v: Vec3, n: Vec3)
    requires LengthSquared(n) == 1.0
    ensures Dot(Reflect(v, n), n) == -Dot(v, n)
  {
    DotAddScale(v, n, -(2.0 * Dot(v, n)), n);
    assert Reflect(v, n) == Add(v, Scale(n, -(2.0 * Dot(v, n))));
  }

  /** Reflection about a unit normal is an involution. */
  lemma ReflectInvolution(v: Vec3, n: Vec3)
    requires LengthSquared(n) == 1.0
    ensures Reflect(Reflect(v, n), n) == v
  {
    ReflectNegatesNormalComponent(v, n);
    var r := Reflect(v, n);
    var k := 2.0 * Dot(v, n);
    assert Reflect(r, n) == Sub(r, Scale(n, -k));
  }

  /** Reflection about a unit normal preserves length. */
  lemma ReflectPreservesLength(v: Vec3, n: Vec3)
    requires LengthSquared(n) == 1.0
    ensures LengthSquared(Reflect(v, n)) == LengthSquared(v)
  {
    var d := Dot(v, n);
    var c := -(2.0 * d);
    assert Reflect(v, n) == Add(v, Scale(n, c));
    LengthSquaredAddScale(v, n, c);
    assert 2.0 * c * d + c * c == 0.0;
  }

  /** The dot product of two unit vectors lies in [-1, 1]. */
  lemma DotOfUnitVectors(u: Vec3, v: Vec3)
    requires LengthSquared(u) == 1.0 && LengthSquared(v) == 1.0
    ensures -1.0 <= Dot(u, v) <= 1.0
  {
    var d := Dot(u, v);
    LengthSquaredAddScale(u, v, -d);
    assert 0.0 <= 1.0 - d * d;
    SquareMonotone(Abs(d), 1.0);
    assert Abs(d) * Abs(d) == d * d;
  }

  /** With ratio 1 a unit direction arriving against a unit normal passes
      through `refract` undeviated. */
  lemma RefractRatioOneIsIdentity(v: Vec3, n: Vec3, sqrt: real -> real)
    requires IsSqrt(sqrt)
    requires LengthSquared(v) == 1.0 && LengthSquared(n) == 1.0
    requires Dot(v, n) <= 0.0
    ensures Refract(v, n, 1.0, sqrt) == v
  {
    var c := -Dot(v, n);
    DotOfUnitVectors(v, n);
    assert Dot(Neg(v), n) == c;
    assert Min(Dot(Neg(v), n), 1.0) == c;
    var perp := Add(v, Scale(n, c));
    assert Scale(perp, 1.0) == perp;
    PerpLength(v, n, c);
    var cc := c * c;
    assert Abs(1.0 - LengthSquared(perp)) == cc;
    SqrtUnique(sqrt, cc, c);
    assert Scale(n, -sqrt(cc)) == Scale(n, -c);
    assert Add(perp, Scale(n, -c)) == v;
  }

  lemma PerpLength(v: Vec3, n: Vec3, c: real)
    requires LengthSquared(v) == 1.0 && LengthSquared(n) == 1.0
    requires c == -Dot(v, n)
    ensures LengthSquared(Add(v, Scale(n, c))) == 1.0 - c * c
  {
    LengthSquaredAddScale(v, n, c);
    var cc := c * c;
    assert 2.0 * c * Dot(v, n) == -2.0 * cc;
    assert c * c * LengthSquared(n) == cc;
  }

  // ---------------------------------------------------------------------
  // Rejection sampling (`random_in_unit_sphere`)
  // ---------------------------------------------------------------------

  /** `random_in_unit_sphere`: draws candidates (the successive results of
      `random_in_range(-1, 1)`) until one has squared length below 1.
      The source draws for ever; here the draws are a finite sequence and
      running out of them yields None. `drawn` counts the candidates used. */
  method RandomInUnitSphere(candidates: seq<Vec3>) returns (v: Option<Vec3>, drawn: nat)
    ensures drawn <= |candidates|
    ensures v.Some? ==> 0 < drawn && v.value == candidates[drawn - 1]
    ensures v.Some? ==> LengthSquared(v.value) < 1.0
    ensures v.None? ==> drawn == |candidates|
    ensures forall j :: 0 <= j < drawn && (v.None? || j < drawn - 1) ==>
              LengthSquared(candidates[j]) >= 1.0
  {
    drawn := 0;
    while drawn < |candidates|
      invariant drawn <= |candidates|
      invariant forall j :: 0 <= j < drawn ==> LengthSquared(candidates[j]) >= 1.0
    {
      var candidate := candidates[drawn];
      drawn := drawn + 1;
      if LengthSquared(candidate) >= 1.0 {
        continue;
      }
      return Some(candidate), drawn;
    }
    return None, drawn;
  }
}
