/** A sphere and its ray intersection test (src/sphere.rs). The intersection
    solves |origin + t * direction - center|^2 = radius^2, a quadratic in t
    written with half of its linear coefficient. */
module Spheres {
  import opened Numeric
  import opened Optional
  import opened Common
  import opened Vectors
  import opened Rays
  import opened Hits

  /** `Sphere::new` is this constructor: it stores its three arguments. */
  datatype Sphere = Sphere(center: Point3, radius: real, material: U32)

  /** p lies on the surface of s. */
  predicate OnSurface(s: Sphere, p: Point3) {
    LengthSquared(Sub(p, s.center)) == s.radius * s.radius
  }

  /** The coefficients a, half_b and c of the quadratic and its discriminant. */
  function QuadA(ray: Ray): real {
    Dot(ray.direction, ray.direction)
  }

  function HalfB(s: Sphere, ray: Ray): real {
    Dot(ray.direction, Sub(ray.origin, s.center))
  }

  function QuadC(s: Sphere, ray: Ray): real {
    var originToCenter := Sub(ray.origin, s.center);
    Dot(originToCenter, originToCenter) - s.radius * s.radius
  }

  function Discriminant(s: Sphere, ray: Ray): real {
    HalfB(s, ray) * HalfB(s, ray) - QuadA(ray) * QuadC(s, ray)
  }

  /** The root the source tries first, (-half_b - sqrt_d) / a, ... */
  function NearRoot(s: Sphere, ray: Ray, sqrt: real -> real): real
    requires QuadA(ray) != 0.0
  {
    (-HalfB(s, ray) - sqrt(Discriminant(s, ray))) / QuadA(ray)
  }

  /** ... and the one it falls back to, (-half_b + sqrt_d) / a. */
  function FarRoot(s: Sphere, ray: Ray, sqrt: real -> real): real
    requires QuadA(ray) != 0.0
  {
    (-HalfB(s, ray) + sqrt(Discriminant(s, ray))) / QuadA(ray)
  }

  /** The outward normal at p, (p - center) / radius. With a negative
      radius it points into the sphere. */
  function OutwardNormal(s: Sphere, p: Point3): Vec3
    requires s.radius != 0.0
  {
    DivScalar(Sub(p, s.center), s.radius)
  }

  /** `hit_scan`: a negative discriminant misses; otherwise the near root is
      taken when it lies strictly inside (tMin, tMax), the far root when
      only it does, and nothing when neither does. A ray with a zero
      direction (a == 0) makes both roots NaN in the source, which no range
      test accepts, so it misses as well. A zero radius, which would make
      the normal NaN, is excluded. */
  function HitScan(s: Sphere, ray: Ray, tMin: real, tMax: real, sqrt: real -> real): (r: Option<Hit>)
    requires IsSqrt(sqrt)
    requires s.radius != 0.0
    ensures Discriminant(s, ray) < 0.0 || QuadA(ray) == 0.0 ==> r.None?
    ensures r.Some? ==> InRange(tMin, r.value.t, tMax)
    ensures r.Some? ==> r.value.t == NearRoot(s, ray, sqrt) || r.value.t == FarRoot(s, ray, sqrt)
    ensures QuadA(ray) != 0.0 && Discriminant(s, ray) >= 0.0 ==>
      (InRange(tMin, NearRoot(s, ray, sqrt), tMax) ==> r.Some? && r.value.t == NearRoot(s, ray, sqrt)) &&
      (InRange(tMin, FarRoot(s, ray, sqrt), tMax) ==> r.Some?)
    ensures r.Some? ==> r.value.position == At(ray, r.value.t) && r.value.material == Some(s.material)
    ensures r.Some? ==>
      var outward := OutwardNormal(s, r.value.position);
      (r.value.normal == outward || r.value.normal == Neg(outward)) &&
      (r.value.frontFace <==> Dot(ray.direction, outward) < 0.0) &&
      Dot(ray.direction, r.value.normal) <= 0.0
  {
    var a := QuadA(ray);
    var discriminant := Discriminant(s, ray);
    if discriminant < 0.0 || a == 0.0 then None
    else
      var root :=
        if InRange(tMin, NearRoot(s, ray, sqrt), tMax) then Some(NearRoot(s, ray, sqrt))
        else if InRange(tMin, FarRoot(s, ray, sqrt), tMax) then Some(FarRoot(s, ray, sqrt))
        else None;
      match root
      case None => None
      case Some(t) =>
        var position := At(ray, t);
        var blank := Hit(t, position, ZERO, false, Some(s.material));
        Some(SetFaceNormal(blank, ray, OutwardNormal(s, position)))
  }

  /** The squared distance from a point of the ray to the center, minus the
      squared radius, is the quadratic a t^2 + 2 half_b t + c. */
  lemma SurfaceQuadratic(s: Sphere, ray: Ray, t: real)
    ensures LengthSquared(Sub(At(ray, t), s.center)) - s.radius * s.radius
         == QuadA(ray) * t * t + 2.0 * HalfB(s, ray) * t + QuadC(s, ray)
  {
    var oc := Sub(ray.origin, s.center);
    var d := ray.direction;
    assert Sub(At(ray, t), s.center) == Add(oc, Scale(d, t));
    LengthSquaredAddScale(oc, d, t);
    DotSymmetric(oc, d);
    DotSelfIsLengthSquared(d);
    DotSelfIsLengthSquared(oc);
    var a, hb := LengthSquared(d), Dot(oc, d);
    assert QuadA(ray) == a && HalfB(s, ray) == hb;
    assert t * t * a == a * t * t;
    assert 2.0 * t * hb == 2.0 * hb * t;
  }

  /** With a > 0 and sd the square root of the discriminant, the quadratic
      vanishes exactly at the two roots. */
  lemma QuadraticRoots(a: real, hb: real, c: real, sd: real, t: real)
    requires a > 0.0 && 0.0 <= sd && sd * sd == hb * hb - a * c
    ensures a * t * t + 2.0 * hb * t + c == 0.0 <==> (t == (-hb - sd) / a || t == (-hb + sd) / a)
  {
    var u := a * t + hb;
    var q := a * t * t + 2.0 * hb * t + c;
    assert a * q == u * u - sd * sd;
    assert u * u - sd * sd == (u - sd) * (u + sd);
    assert q == 0.0 <==> a * q == 0.0;
    ProductZero(u - sd, u + sd);
    assert u == sd <==> t == (-hb + sd) / a;
    assert u == -sd <==> t == (-hb - sd) / a;
  }

  /** A product vanishes exactly when a factor does. */
  lemma ProductZero(x: real, y: real)
    ensures x * y == 0.0 <==> (x == 0.0 || y == 0.0)
  {
    if x != 0.0 && y != 0.0 {
      assert (x * y) / x == y;
    }
  }

  /** With a > 0 and a negative discriminant the quadratic has no root. */
  lemma QuadraticNoRoot(a: real, hb: real, c: real, t: real)
    requires a > 0.0 && hb * hb - a * c < 0.0
    ensures a * t * t + 2.0 * hb * t + c > 0.0
  {
    var u := a * t + hb;
    var q := a * t * t + 2.0 * hb * t + c;
    assert a * q == u * u + (a * c - hb * hb);
    assert u * u >= 0.0;
    assert a * q > 0.0;
  }

  /** The points where a ray with nonzero direction meets the surface are
      exactly the two roots, and there are none when the discriminant is
      negative. */
  lemma SurfacePoints(s: Sphere, ray: Ray, sqrt: real -> real, t: real)
    requires IsSqrt(sqrt)
    requires QuadA(ray) > 0.0
    ensures OnSurface(s, At(ray, t)) <==>
      Discriminant(s, ray) >= 0.0 && (t == NearRoot(s, ray, sqrt) || t == FarRoot(s, ray, sqrt))
  {
    SurfaceQuadratic(s, ray, t);
    var a, hb, c := QuadA(ray), HalfB(s, ray), QuadC(s, ray);
    if Discriminant(s, ray) >= 0.0 {
      QuadraticRoots(a, hb, c, sqrt(Discriminant(s, ray)), t);
    } else {
      QuadraticNoRoot(a, hb, c, t);
    }
  }

  /** The near root is never beyond the far one. */
  lemma RootsOrdered(s: Sphere, ray: Ray, sqrt: real -> real)
    requires IsSqrt(sqrt)
    requires QuadA(ray) > 0.0 && Discriminant(s, ray) >= 0.0
    ensures NearRoot(s, ray, sqrt) <= FarRoot(s, ray, sqrt)
  {
    var a, hb, sd := QuadA(ray), HalfB(s, ray), sqrt(Discriminant(s, ray));
    assert -hb - sd <= -hb + sd;
  }

  /** A reported hit lies on the surface of the sphere. */
  lemma HitScanOnSurface(s: Sphere, ray: Ray, tMin: real, tMax: real, sqrt: real -> real)
    requires IsSqrt(sqrt) && s.radius != 0.0
    requires HitScan(s, ray, tMin, tMax, sqrt).Some?
    ensures OnSurface(s, HitScan(s, ray, tMin, tMax, sqrt).value.position)
  {
    var hit := HitScan(s, ray, tMin, tMax, sqrt).value;
    DotSelfIsLengthSquared(ray.direction);
    assert QuadA(ray) > 0.0 && Discriminant(s, ray) >= 0.0;
    assert hit.position == At(ray, hit.t);
    SurfacePoints(s, ray, sqrt, hit.t);
  }

  /** A reported hit is the nearest surface point beyond tMin. */
  lemma HitScanNearest(s: Sphere, ray: Ray, tMin: real, tMax: real, sqrt: real -> real, t: real)
    requires IsSqrt(sqrt) && s.radius != 0.0
    requires HitScan(s, ray, tMin, tMax, sqrt).Some?
    requires tMin < t < HitScan(s, ray, tMin, tMax, sqrt).value.t
    ensures !OnSurface(s, At(ray, t))
  {
    var hit := HitScan(s, ray, tMin, tMax, sqrt).value;
    DotSelfIsLengthSquared(ray.direction);
    assert QuadA(ray) > 0.0 && Discriminant(s, ray) >= 0.0;
    RootsOrdered(s, ray, sqrt);
    SurfacePoints(s, ray, sqrt, t);
  }

  /** A miss means no point of the surface lies strictly inside
      (tMin, tMax) along a ray with nonzero direction. */
  lemma HitScanMiss(s: Sphere, ray: Ray, tMin: real, tMax: real, sqrt: real -> real, t: real)
    requires IsSqrt(sqrt) && s.radius != 0.0
    requires QuadA(ray) > 0.0
    requires HitScan(s, ray, tMin, tMax, sqrt).None?
    requires InRange(tMin, t, tMax)
    ensures !OnSurface(s, At(ray, t))
  {
    SurfacePoints(s, ray, sqrt, t);
  }

  /** On the surface the outward normal has unit length, and its dot
      product with p - center equals the radius: it points away from the
      center exactly when the radius is positive. */
  lemma OutwardNormalOnSurface(s: Sphere, p: Point3)
    requires s.radius != 0.0
    requires OnSurface(s, p)
    ensures LengthSquared(OutwardNormal(s, p)) == 1.0
    ensures Dot(OutwardNormal(s, p), Sub(p, s.center)) == s.radius
  {
    var v := Sub(p, s.center);
    var r := s.radius;
    var inv := 1.0 / r;
    assert inv * r == 1.0;
    assert DivScalar(v, r) == Scale(v, inv);
    ScaleProducts(v, inv);
    DotSelfIsLengthSquared(v);
    var rr := r * r;
    assert inv * inv * rr == (inv * r) * (inv * r);
    assert inv * rr == (inv * r) * r;
  }
}
