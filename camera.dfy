/** The fixed pinhole camera (src/camera.rs): it sits at the origin, looks
    down -z through a viewport 2 units high and 2 * aspect_ratio units wide
    at focal length 1, and maps viewport coordinates (u, v) to rays. */
module Cameras {
  import opened Vectors
  import opened Rays

  datatype Camera = Camera(origin: Point3, bottomLeft: Point3, horizontal: Vec3, vertical: Vec3)

  /** `Camera::new(aspect_ratio)`: a viewport 2 high and 2 * aspect_ratio
      wide, centred on the -z axis at focal length 1. */
  function New(aspectRatio: real): (c: Camera)
    ensures c.origin == ZERO
    ensures c.horizontal == Vec3(2.0 * aspectRatio, 0.0, 0.0)
    ensures c.vertical == Vec3(0.0, 2.0, 0.0)
    ensures c.bottomLeft == Vec3(-aspectRatio, -1.0, -1.0)
  {
    var viewportHeight := 2.0;
    var viewportWidth := viewportHeight * aspectRatio;
    var focalLength := 1.0;
    var origin := Vec3(0.0, 0.0, 0.0);
    var horizontal := Vec3(viewportWidth, 0.0, 0.0);
    var vertical := Vec3(0.0, viewportHeight, 0.0);
    var bottomLeft :=
      Sub(Sub(Sub(origin, DivScalar(horizontal, 2.0)), DivScalar(vertical, 2.0)), Vec3(0.0, 0.0, focalLength));
    Camera(origin, bottomLeft, horizontal, vertical)
  }

  /** `get_ray`: from the origin towards bottom_left + u * horizontal +
      v * vertical. */
  function GetRay(c: Camera, u: real, v: real): (r: Ray)
    ensures r.origin == c.origin
  {
    Ray(c.origin, Sub(Add(Add(c.bottomLeft, Scale(c.horizontal, u)), Scale(c.vertical, v)), c.origin))
  }

  /** The direction of `get_ray` component by component, for any camera. */
  lemma GetRayComponents(c: Camera, u: real, v: real)
    ensures GetRay(c, u, v).direction.x == c.bottomLeft.x + c.horizontal.x * u + c.vertical.x * v - c.origin.x
    ensures GetRay(c, u, v).direction.y == c.bottomLeft.y + c.horizontal.y * u + c.vertical.y * v - c.origin.y
    ensures GetRay(c, u, v).direction.z == c.bottomLeft.z + c.horizontal.z * u + c.vertical.z * v - c.origin.z
  {
  }

  /** For any camera, moving across the viewport shifts the direction
      linearly: by (u1 - u2) horizontal spans and (v1 - v2) vertical ones,
      while the origin stays put. */
  lemma GetRayShift(c: Camera, u1: real, v1: real, u2: real, v2: real)
    ensures GetRay(c, u1, v1).origin == GetRay(c, u2, v2).origin
    ensures GetRay(c, u1, v1).direction
         == Add(GetRay(c, u2, v2).direction,
                Add(Scale(c.horizontal, u1 - u2), Scale(c.vertical, v1 - v2)))
  {
    GetRayComponents(c, u1, v1);
    GetRayComponents(c, u2, v2);
    var h, w := c.horizontal, c.vertical;
    assert h.x * u1 == h.x * u2 + h.x * (u1 - u2) && w.x * v1 == w.x * v2 + w.x * (v1 - v2);
    assert h.y * u1 == h.y * u2 + h.y * (u1 - u2) && w.y * v1 == w.y * v2 + w.y * (v1 - v2);
    assert h.z * u1 == h.z * u2 + h.z * (u1 - u2) && w.z * v1 == w.z * v2 + w.z * (v1 - v2);
  }

  /** For the camera `new` builds, the ray through (u, v) in closed form. */
  lemma GetRayClosedForm(aspectRatio: real, u: real, v: real)
    ensures GetRay(New(aspectRatio), u, v).origin == ZERO
    ensures GetRay(New(aspectRatio), u, v).direction.x == (2.0 * u - 1.0) * aspectRatio
    ensures GetRay(New(aspectRatio), u, v).direction.y == 2.0 * v - 1.0
    ensures GetRay(New(aspectRatio), u, v).direction.z == -1.0
  {
    var a := aspectRatio;
    var c := New(a);
    GetRayComponents(c, u, v);
    assert c.horizontal.x * u == (2.0 * a) * u;
    assert (2.0 * u - 1.0) * a == -a + (2.0 * a) * u;
  }

  /** Every ray leaves from the origin and has z-component -1 in its
      direction, whatever u and v are. */
  lemma RaysLeaveOriginTowardsViewport(aspectRatio: real, u: real, v: real)
    ensures GetRay(New(aspectRatio), u, v).origin == ZERO
    ensures GetRay(New(aspectRatio), u, v).direction.z == -1.0
  {
    GetRayClosedForm(aspectRatio, u, v);
  }

  /** The centre of the viewport is straight ahead and (0, 0) is its
      bottom-left corner. */
  lemma CenterAndCorner(aspectRatio: real)
    ensures GetRay(New(aspectRatio), 0.5, 0.5).direction == Vec3(0.0, 0.0, -1.0)
    ensures GetRay(New(aspectRatio), 0.0, 0.0).direction == New(aspectRatio).bottomLeft
  {
    GetRayClosedForm(aspectRatio, 0.5, 0.5);
    GetRayClosedForm(aspectRatio, 0.0, 0.0);
  }

  /** The horizontal coordinate depends on u alone and the vertical one on
      v alone. */
  lemma CoordinatesSeparate(aspectRatio: real, u: real, v1: real, v2: real, u1: real, u2: real, v: real)
    ensures GetRay(New(aspectRatio), u, v1).direction.x == GetRay(New(aspectRatio), u, v2).direction.x
    ensures GetRay(New(aspectRatio), u1, v).direction.y == GetRay(New(aspectRatio), u2, v).direction.y
  {
    GetRayClosedForm(aspectRatio, u, v1);
    GetRayClosedForm(aspectRatio, u, v2);
    GetRayClosedForm(aspectRatio, u1, v);
    GetRayClosedForm(aspectRatio, u2, v);
  }
}
