/** The light-emitting material (src/material/diffuse_light.rs). */
module DiffuseLightMaterial {
  import opened Optional
  import opened Vectors
  import opened Rays
  import opened Hits
  import opened Colors
  import opened Scattering

  /** `DiffuseLight::new` is this constructor: it stores the colour and the
      intensity unchanged. */
  datatype DiffuseLight = DiffuseLight(color: Color, intensity: real)

  /** `scatter`: a light absorbs every ray that reaches it. */
  function Scatter(l: DiffuseLight, ray: Ray, hit: Hit): (r: Option<ScatterResult>)
    ensures r.None?
  {
    None
  }

  /** `emit`: the colour scaled by the intensity, channel by channel. */
  function Emit(l: DiffuseLight, ray: Ray, hit: Hit): (c: Color)
    ensures c.x == l.color.x * l.intensity
    ensures c.y == l.color.y * l.intensity
    ensures c.z == l.color.z * l.intensity
  {
    Scale(l.color, l.intensity)
  }

  /** The light given off depends on neither the ray nor the hit. */
  lemma EmitIndependentOfRayAndHit(l: DiffuseLight, ray1: Ray, hit1: Hit, ray2: Ray, hit2: Hit)
    ensures Emit(l, ray1, hit1) == Emit(l, ray2, hit2)
  {
  }

  /** At intensity 1 a light emits its own colour, at intensity 0 nothing. */
  lemma EmitAtUnitAndZeroIntensity(color: Color, ray: Ray, hit: Hit)
    ensures Emit(DiffuseLight(color, 1.0), ray, hit) == color
    ensures Emit(DiffuseLight(color, 0.0), ray, hit) == BLACK
  {
  }
}
