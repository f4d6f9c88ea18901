/** The diffuse material (src/material/lambertian.rs). The random unit
    vector the source draws is the parameter `unitDraw`. */
module LambertianMaterial {
  import opened Numeric
  import opened Optional
  import opened Vectors
  import opened Rays
  import opened Hits
  import opened Colors
  import opened Scattering

  /** `Lambertian::new` is this constructor. */
  datatype Lambertian = Lambertian(albedo: Color)

  /** The scattered direction: the normal plus the drawn unit vector, or
      the normal alone when that sum is nearly the zero vector. */
  function ScatterDirection(hit: Hit, unitDraw: Vec3): (d: Vec3)
    ensures IsNearZero(Add(hit.normal, unitDraw)) ==> d == hit.normal
    ensures !IsNearZero(Add(hit.normal, unitDraw)) ==> d == Add(hit.normal, unitDraw)
  {
    var direction := Add(hit.normal, unitDraw);
    if IsNearZero(direction) then hit.normal else direction
  }

  /** `scatter`: always scatters, from the hit position, attenuated by the
      albedo. */
  function Scatter(l: Lambertian, ray: Ray, hit: Hit, unitDraw: Vec3): (r: Option<ScatterResult>)
    ensures r.Some?
    ensures r.value.attenuation == l.albedo
    ensures r.value.ray.origin == hit.position
    ensures r.value.ray.direction == ScatterDirection(hit, unitDraw)
  {
    Some(ScatterResult(Ray(hit.position, ScatterDirection(hit, unitDraw)), l.albedo))
  }

  /** `emit`: a diffuse surface gives off no light. */
  function Emit(l: Lambertian, ray: Ray, hit: Hit): (c: Color)
    ensures c == BLACK
  {
    Vec3(0.0, 0.0, 0.0)
  }

  /** With a unit normal the scattered direction is never near zero, which
      is what the fallback to the normal guards against. */
  lemma ScatterDirectionNotDegenerate(hit: Hit, unitDraw: Vec3)
    requires LengthSquared(hit.normal) == 1.0
    ensures !IsNearZero(ScatterDirection(hit, unitDraw))
  {
    NearZeroMeansShort(hit.normal);
  }

  /** With a unit normal and a unit draw the scattered direction never
      points below the surface. */
  lemma ScatterIntoHemisphere(hit: Hit, unitDraw: Vec3)
    requires LengthSquared(hit.normal) == 1.0 && LengthSquared(unitDraw) == 1.0
    ensures Dot(ScatterDirection(hit, unitDraw), hit.normal) >= 0.0
  {
    var n := hit.normal;
    DotOfUnitVectors(unitDraw, n);
    DotSelfIsLengthSquared(n);
    assert Add(n, unitDraw) == Add(unitDraw, Scale(n, 1.0));
    DotAddScale(unitDraw, n, 1.0, n);
  }
}
