/** What a material does with an incoming ray (src/material/mod.rs): a
    scattered ray and the attenuation applied to the light it carries. */
module Scattering {
  import opened Rays
  import opened Colors

  datatype ScatterResult = ScatterResult(ray: Ray, attenuation: Color)
}
