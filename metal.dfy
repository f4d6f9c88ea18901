/** The reflective material (src/material/metal.rs). The random point in
    the unit sphere the source draws is the parameter `sphereDraw`. */
module MetalMaterial {
  import opened Numeric
  import opened Optional
  import opened Vectors
  import opened Rays
  import opened Hits
  import opened Colors
  import opened Scattering

  datatype Metal = Metal(albedo: Color, fuzz: real)

  /** `Metal::new`: the fuzz is capped at 1 and has no lower bound. */
  function New(albedo: Color, fuzz: real): (m: Metal)
    ensures m.albedo == albedo
    ensures m.fuzz <= 1.0
    ensures fuzz <= 1.0 ==> m.fuzz == fuzz
    ensures fuzz >= 1.0 ==> m.fuzz == 1.0
  {
    Metal(albedo, Min(fuzz, 1.0))
  }

  /** The mirror direction of the unit incoming direction, perturbed by the
      fuzz-scaled draw. */
  function ScatteredDirection(m: Metal, ray: Ray, hit: Hit, sphereDraw: Vec3, sqrt: real -> real): Vec3
    requires IsSqrt(sqrt)
    requires LengthSquared(ray.direction) > 0.0
  {
    Add(Reflect(Unit(ray.direction, sqrt), hit.normal), Scale(sphereDraw, m.fuzz))
  }

  /** `scatter`: the ray scatters exactly when its new direction leaves on
      the side the normal points to. A zero incoming direction makes
      `unit` divide zero by zero in the source; the NaN direction fails the
      test, so it never scatters. */
  function Scatter(m: Metal, ray: Ray, hit: Hit, sphereDraw: Vec3, sqrt: real -> real): (r: Option<ScatterResult>)
    requires IsSqrt(sqrt)
    ensures r.Some? <==>
      LengthSquared(ray.direction) > 0.0 && Dot(ScatteredDirection(m, ray, hit, sphereDraw, sqrt), hit.normal) > 0.0
    ensures r.Some? ==> r.value.ray == Ray(hit.position, ScatteredDirection(m, ray, hit, sphereDraw, sqrt))
    ensures r.Some? ==> r.value.attenuation == m.albedo && Dot(r.value.ray.direction, hit.normal) > 0.0
  {
    if LengthSquared(ray.direction) == 0.0 then None
    else
      var scattered := Ray(hit.position, ScatteredDirection(m, ray, hit, sphereDraw, sqrt));
      if Dot(scattered.direction, hit.normal) > 0.0 then Some(ScatterResult(scattered, m.albedo))
      else None
  }

  /** `emit`: metal gives off no light. */
  function Emit(m: Metal, ray: Ray, hit: Hit): (c: Color)
    ensures c == BLACK
  {
    Vec3(0.0, 0.0, 0.0)
  }

  /** A perfect mirror (fuzz 0) with a unit normal sends the ray along the
      reflection of its unit direction, and it does so exactly when the ray
      comes in against the normal. */
  lemma PerfectMirror(m: Metal, ray: Ray, hit: Hit, sphereDraw: Vec3, sqrt: real -> real)
    requires IsSqrt(sqrt)
    requires m.fuzz == 0.0
    requires LengthSquared(ray.direction) > 0.0 && LengthSquared(hit.normal) == 1.0
    ensures Scatter(m, ray, hit, sphereDraw, sqrt).Some? <==> Dot(Unit(ray.direction, sqrt), hit.normal) < 0.0
    ensures Scatter(m, ray, hit, sphereDraw, sqrt).Some? ==>
      Scatter(m, ray, hit, sphereDraw, sqrt).value.ray.direction == Reflect(Unit(ray.direction, sqrt), hit.normal)
  {
    var u := Unit(ray.direction, sqrt);
    var reflected := Reflect(u, hit.normal);
    assert Add(reflected, Scale(sphereDraw, 0.0)) == reflected;
    ReflectNegatesNormalComponent(u, hit.normal);
  }

  /** The reflection keeps the length of the unit direction, so an
      unperturbed scattered ray has unit direction. */
  lemma PerfectMirrorUnitDirection(m: Metal, ray: Ray, hit: Hit, sphereDraw: Vec3, sqrt: real -> real)
    requires IsSqrt(sqrt)
    requires m.fuzz == 0.0
    requires LengthSquared(ray.direction) > 0.0 && LengthSquared(hit.normal) == 1.0
    ensures LengthSquared(ScatteredDirection(m, ray, hit, sphereDraw, sqrt)) == 1.0
  {
    var u := Unit(ray.direction, sqrt);
    var reflected := Reflect(u, hit.normal);
    assert Add(reflected, Scale(sphereDraw, 0.0)) == reflected;
    ReflectPreservesLength(u, hit.normal);
  }
}
