/** The flat material record shared with the GPU (src/material.rs): a
    numeric tag says which kind of material it is, and the fields a kind
    does not use hold the sentinel -1. */
module Materials {
  import opened Numeric
  import opened Optional
  import opened Vectors
  import opened Colors

  datatype Material = Material(
    matType: U32,
    color: Color,
    emissionIntensity: real,
    refractiveIndex: real,
    fuzz: real)

  /** The kinds of material the tag distinguishes. */
  datatype Kind = LambertianKind | MetalKind | DielectricKind | DiffuseLightKind

  const UNUSED: real := -1.0

  /** The kind a record's tag stands for; other tag values name none. */
  function KindOf(m: Material): (k: Option<Kind>)
    ensures k.Some? <==> m.matType < 4
  {
    match m.matType
    case 0 => Some(LambertianKind)
    case 1 => Some(MetalKind)
    case 2 => Some(DielectricKind)
    case 3 => Some(DiffuseLightKind)
    case _ => None
  }

  /** `lambertian`: tag 0 with the given colour. */
  function Lambertian(color: Color): (m: Material)
    ensures KindOf(m) == Some(LambertianKind)
    ensures m.color == color
    ensures m.emissionIntensity == UNUSED && m.refractiveIndex == UNUSED && m.fuzz == UNUSED
  {
    Material(0, color, -1.0, -1.0, -1.0)
  }

  /** `metal`: tag 1; the fuzz is stored as given, without the cap at 1
      that `Metal::new` applies. */
  function Metal(color: Color, fuzz: real): (m: Material)
    ensures KindOf(m) == Some(MetalKind)
    ensures m.color == color && m.fuzz == fuzz
    ensures m.emissionIntensity == UNUSED && m.refractiveIndex == UNUSED
  {
    Material(1, color, -1.0, -1.0, fuzz)
  }

  /** `dielectric`: tag 2, a black colour and the given refractive index. */
  function Dielectric(refractiveIndex: real): (m: Material)
    ensures KindOf(m) == Some(DielectricKind)
    ensures m.color == BLACK && m.refractiveIndex == refractiveIndex
    ensures m.emissionIntensity == UNUSED && m.fuzz == UNUSED
  {
    Material(2, Vec3(0.0, 0.0, 0.0), -1.0, refractiveIndex, -1.0)
  }

  /** `diffuse_light`: tag 3 with the given colour and intensity. */
  function DiffuseLight(color: Color, emissionIntensity: real): (m: Material)
    ensures KindOf(m) == Some(DiffuseLightKind)
    ensures m.color == color && m.emissionIntensity == emissionIntensity
    ensures m.refractiveIndex == UNUSED && m.fuzz == UNUSED
  {
    Material(3, color, emissionIntensity, -1.0, -1.0)
  }

  /** Rebuilds a record from its tag and the fields its kind uses, through
      the matching constructor. */
  function Rebuild(m: Material): (r: Option<Material>)
    ensures r.Some? <==> KindOf(m).Some?
    ensures r.Some? ==> r.value.matType == m.matType
  {
    match KindOf(m)
    case Some(LambertianKind) => Some(Lambertian(m.color))
    case Some(MetalKind) => Some(Metal(m.color, m.fuzz))
    case Some(DielectricKind) => Some(Dielectric(m.refractiveIndex))
    case Some(DiffuseLightKind) => Some(DiffuseLight(m.color, m.emissionIntensity))
    case None => None
  }

  /** The tag together with the fields a kind uses determine the record:
      every record a constructor builds is rebuilt exactly. */
  lemma RebuildRoundTrip(color: Color, fuzz: real, refractiveIndex: real, emissionIntensity: real)
    ensures Rebuild(Lambertian(color)) == Some(Lambertian(color))
    ensures Rebuild(Metal(color, fuzz)) == Some(Metal(color, fuzz))
    ensures Rebuild(Dielectric(refractiveIndex)) == Some(Dielectric(refractiveIndex))
    ensures Rebuild(DiffuseLight(color, emissionIntensity)) == Some(DiffuseLight(color, emissionIntensity))
  {
  }

  /** Records from different constructors never share a tag, so the tag
      alone tells the kinds apart. */
  lemma TagsDistinct(c1: Color, c2: Color, fuzz: real, refractiveIndex: real, emissionIntensity: real)
    ensures Lambertian(c1).matType != Metal(c2, fuzz).matType
    ensures Lambertian(c1).matType != Dielectric(refractiveIndex).matType
    ensures Lambertian(c1).matType != DiffuseLight(c2, emissionIntensity).matType
    ensures Metal(c1, fuzz).matType != Dielectric(refractiveIndex).matType
    ensures Metal(c1, fuzz).matType != DiffuseLight(c2, emissionIntensity).matType
    ensures Dielectric(refractiveIndex).matType != DiffuseLight(c2, emissionIntensity).matType
  {
  }
}
