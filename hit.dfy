/** The record of one ray-surface intersection: parameter t, position,
    surface normal, front-face flag and the index of the surface's
    material. */
module Hits {
  import opened Numeric
  import opened Vectors
  import opened Rays
  import opened Optional

  datatype Hit = Hit(t: real, position: Point3, normal: Vec3, frontFace: bool, material: Option<U32>)

  /** `set_face_normal`: records whether the ray meets the surface from the
      side the outward normal points to, and stores the normal turned to
      face against the ray. Every other field is kept. */
  function SetFaceNormal(hit: Hit, ray: Ray, outwardNormal: Vec3): (r: Hit)
    ensures r.t == hit.t && r.position == hit.position && r.material == hit.material
    ensures r.frontFace <==> Dot(ray.direction, outwardNormal) < 0.0
    ensures r.normal == outwardNormal || r.normal == Neg(outwardNormal)
    ensures Dot(ray.direction, r.normal) <= 0.0
  {
    var frontFace := Dot(ray.direction, outwardNormal) < 0.0;
    var normal := if frontFace then outwardNormal else Neg(outwardNormal);
    assert Dot(ray.direction, Neg(outwardNormal)) == -Dot(ray.direction, outwardNormal);
    hit.(normal := normal, frontFace := frontFace)
  }
}
