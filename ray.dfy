/** Rays: an origin and a direction that need not have unit length. */
module Rays {
  import opened Vectors

  datatype Ray = Ray(origin: Point3, direction: Vec3)

  /** `at(t)`: the point origin + t * direction. */
  function At(ray: Ray, t: real): Point3 {
    Add(ray.origin, Scale(ray.direction, t))
  }
}
