/** The refracting material (src/material/dielectric.rs): it reflects when
    Snell's law has no solution or, by Schlick's approximation of the
    Fresnel reflectance, when the uniform draw `draw` falls below the
    reflectance; otherwise it refracts. */
module DielectricMaterial {
  import opened Numeric
  import opened Optional
  import opened Vectors
  import opened Rays
  import opened Hits
  import opened Colors
  import opened Scattering

  /** `Dielectric::new` is this constructor. */
  datatype Dielectric = Dielectric(refIdx: real)

  /** Reflectance at normal incidence, ((1 - n) / (1 + n))^2. */
  function R0(refIdx: real): (r: real)
    requires refIdx != -1.0
    ensures 0.0 <= r
    ensures 0.0 <= refIdx ==> r <= 1.0
  {
    var q := (1.0 - refIdx) / (1.0 + refIdx);
    assert 0.0 <= refIdx ==> -1.0 <= q <= 1.0;
    assert q * q == Abs(q) * Abs(q);
    SquareMonotone(Abs(q), 1.0);
    q * q
  }

  /** `reflectance`: Schlick's approximation, r0 + (1 - r0)(1 - cos)^5. */
  function Reflectance(cos: real, refIdx: real): (r: real)
    requires refIdx != -1.0
    ensures 0.0 <= refIdx && 0.0 <= cos <= 1.0 ==> R0(refIdx) <= r <= 1.0
  {
    var r0 := R0(refIdx);
    var grazing := Pow5(1.0 - cos);
    var k := 1.0 - r0;
    assert 0.0 <= refIdx && 0.0 <= cos <= 1.0 ==> 0.0 <= k * grazing <= k by {
      if 0.0 <= refIdx && 0.0 <= cos <= 1.0 {
        Pow5UnitInterval(1.0 - cos);
        ScaleWithinUnit(k, grazing);
      }
    }
    r0 + k * grazing
  }

  /** Head-on, the reflectance is r0. */
  lemma ReflectanceHeadOn(refIdx: real)
    requires refIdx != -1.0
    ensures Reflectance(1.0, refIdx) == R0(refIdx)
  {
  }

  /** With matched indices r0 vanishes and only the grazing term
      (1 - cos)^5 is left; it is 0 head-on. */
  lemma ReflectanceMatchedIndex(cos: real)
    ensures R0(1.0) == 0.0
    ensures Reflectance(cos, 1.0) == Pow5(1.0 - cos)
    ensures Reflectance(1.0, 1.0) == 0.0
  {
  }

  /** The ratio of refractive indices across the surface: entering from the
      front face it is 1 / refIdx, leaving through the back face refIdx. */
  function RefractiveRatio(d: Dielectric, frontFace: bool): (ratio: real)
    requires d.refIdx != 0.0
    ensures frontFace ==> ratio * d.refIdx == 1.0
    ensures !frontFace ==> ratio == d.refIdx
  {
    if frontFace then 1.0 / d.refIdx else d.refIdx
  }

  /** The cosine of the angle of incidence, capped at 1. */
  function CosTheta(unitDirection: Vec3, normal: Vec3): (c: real)
    ensures c <= 1.0 && c <= Dot(Neg(unitDirection), normal)
    ensures c == 1.0 || c == Dot(Neg(unitDirection), normal)
  {
    Min(Dot(Neg(unitDirection), normal), 1.0)
  }

  /** Snell's law has no solution: ratio * sin(theta) > 1. When
      1 - cos^2 is negative the source takes the square root of a negative
      number; the NaN fails the comparison, so refraction stays possible. */
  predicate CannotRefract(ratio: real, cos: real, sqrt: real -> real) {
    var sin2 := 1.0 - cos * cos;
    sin2 >= 0.0 && ratio * sqrt(sin2) > 1.0
  }

  /** Whether the ray reflects rather than refracts, given the draw. */
  predicate Reflects(d: Dielectric, ray: Ray, hit: Hit, draw: real, sqrt: real -> real)
    requires IsSqrt(sqrt)
    requires LengthSquared(ray.direction) > 0.0
    requires d.refIdx != 0.0 && d.refIdx != -1.0
  {
    var ratio := RefractiveRatio(d, hit.frontFace);
    var cos := CosTheta(Unit(ray.direction, sqrt), hit.normal);
    CannotRefract(ratio, cos, sqrt) || Reflectance(cos, ratio) > draw
  }

  /** `scatter`: always scatters, from the hit position, with white
      attenuation; the direction is the mirror image of the unit incoming
      direction when it reflects and its refraction otherwise. A zero
      incoming direction (NaN in the source) and indices 0 and -1, where
      the source divides by zero, are excluded. */
  function Scatter(d: Dielectric, ray: Ray, hit: Hit, draw: real, sqrt: real -> real): (r: Option<ScatterResult>)
    requires IsSqrt(sqrt)
    requires LengthSquared(ray.direction) > 0.0
    requires d.refIdx != 0.0 && d.refIdx != -1.0
    ensures r.Some?
    ensures r.value.attenuation == WHITE && r.value.ray.origin == hit.position
    ensures Reflects(d, ray, hit, draw, sqrt) ==>
      r.value.ray.direction == Reflect(Unit(ray.direction, sqrt), hit.normal)
    ensures !Reflects(d, ray, hit, draw, sqrt) ==>
      r.value.ray.direction == Refract(Unit(ray.direction, sqrt), hit.normal, RefractiveRatio(d, hit.frontFace), sqrt)
  {
    var ratio := RefractiveRatio(d, hit.frontFace);
    var unitDirection := Unit(ray.direction, sqrt);
    var cos := CosTheta(unitDirection, hit.normal);
    var cannotRefract := CannotRefract(ratio, cos, sqrt);
    var isShallowAngle := Reflectance(cos, ratio) > draw;
    var direction :=
      if cannotRefract || isShallowAngle then Reflect(unitDirection, hit.normal)
      else Refract(unitDirection, hit.normal, ratio, sqrt);
    Some(ScatterResult(Ray(hit.position, direction), WHITE))
  }

  /** Total internal reflection: when Snell's law has no solution the ray
      reflects whatever the draw is. */
  lemma TotalInternalReflection(d: Dielectric, ray: Ray, hit: Hit, draw1: real, draw2: real, sqrt: real -> real)
    requires IsSqrt(sqrt)
    requires LengthSquared(ray.direction) > 0.0
    requires d.refIdx != 0.0 && d.refIdx != -1.0
    requires CannotRefract(RefractiveRatio(d, hit.frontFace), CosTheta(Unit(ray.direction, sqrt), hit.normal), sqrt)
    ensures Scatter(d, ray, hit, draw1, sqrt) == Scatter(d, ray, hit, draw2, sqrt)
    ensures Scatter(d, ray, hit, draw1, sqrt).value.ray.direction == Reflect(Unit(ray.direction, sqrt), hit.normal)
  {
  }

  /** Entering a medium at least as dense as the one left (front face,
      refIdx >= 1), Snell's law always has a solution. */
  lemma EnteringDenserMediumCanRefract(d: Dielectric, cos: real, sqrt: real -> real)
    requires IsSqrt(sqrt)
    requires d.refIdx >= 1.0
    ensures !CannotRefract(RefractiveRatio(d, true), cos, sqrt)
  {
    var ratio := RefractiveRatio(d, true);
    var sin2 := 1.0 - cos * cos;
    assert 0.0 < ratio <= 1.0 by {
      assert ratio * d.refIdx == 1.0;
    }
    if sin2 >= 0.0 {
      assert cos * cos >= 0.0;
      SqrtAtMostOne(sqrt, sin2);
      assert ratio * sqrt(sin2) <= 1.0;
    }
  }

  /** With a draw at least as large as the reflectance, refraction is
      taken whenever Snell's law has a solution. */
  lemma RefractsAboveReflectance(d: Dielectric, ray: Ray, hit: Hit, draw: real, sqrt: real -> real)
    requires IsSqrt(sqrt)
    requires LengthSquared(ray.direction) > 0.0
    requires d.refIdx != 0.0 && d.refIdx != -1.0
    requires !CannotRefract(RefractiveRatio(d, hit.frontFace), CosTheta(Unit(ray.direction, sqrt), hit.normal), sqrt)
    requires draw >= Reflectance(CosTheta(Unit(ray.direction, sqrt), hit.normal), RefractiveRatio(d, hit.frontFace))
    ensures Scatter(d, ray, hit, draw, sqrt).value.ray.direction
         == Refract(Unit(ray.direction, sqrt), hit.normal, RefractiveRatio(d, hit.frontFace), sqrt)
  {
  }

  /** Matched indices (refIdx 1) with a unit normal facing the ray: when the
      ray does not take the reflection branch, whose probability is the
      grazing term (1 - cos)^5, it goes on undeviated. */
  lemma MatchedIndexUndeviated(ray: Ray, hit: Hit, draw: real, sqrt: real -> real)
    requires IsSqrt(sqrt)
    requires LengthSquared(ray.direction) > 0.0 && LengthSquared(hit.normal) == 1.0
    requires Dot(Unit(ray.direction, sqrt), hit.normal) <= 0.0
    requires draw >= Pow5(1.0 - CosTheta(Unit(ray.direction, sqrt), hit.normal))
    ensures Scatter(Dielectric(1.0), ray, hit, draw, sqrt).value.ray.direction == Unit(ray.direction, sqrt)
  {
    var d := Dielectric(1.0);
    var u := Unit(ray.direction, sqrt);
    var ratio := RefractiveRatio(d, hit.frontFace);
    assert ratio == 1.0;
    var cos := CosTheta(u, hit.normal);
    assert Dot(Neg(u), hit.normal) == -Dot(u, hit.normal);
    DotOfUnitVectors(u, hit.normal);
    assert 0.0 <= cos <= 1.0;
    var sin2 := 1.0 - cos * cos;
    assert 0.0 <= cos * cos <= cos;
    SqrtAtMostOne(sqrt, sin2);
    assert !CannotRefract(ratio, cos, sqrt);
    ReflectanceMatchedIndex(cos);
    RefractRatioOneIsIdentity(u, hit.normal, sqrt);
  }

  /** Matched indices (refIdx 1) do not let every ray through: a draw below
      the grazing term (1 - cos)^5 still takes the reflection branch, so
      `Scatter` sends the ray along the mirror direction. */
  lemma MatchedIndexGrazingReflects(ray: Ray, hit: Hit, cos: real, draw: real, sqrt: real -> real)
    requires IsSqrt(sqrt)
    requires LengthSquared(ray.direction) > 0.0
    requires cos == CosTheta(Unit(ray.direction, sqrt), hit.normal)
    requires draw < Pow5(1.0 - cos)
    ensures Reflects(Dielectric(1.0), ray, hit, draw, sqrt)
  {
    GrazingReflectance(cos, draw);
  }

  /** With matched indices a draw below the grazing term is below the
      reflectance. */
  lemma GrazingReflectance(cos: real, draw: real)
    requires draw < Pow5(1.0 - cos)
    ensures Reflectance(cos, 1.0) > draw
  {
    ReflectanceMatchedIndex(cos);
  }
}
