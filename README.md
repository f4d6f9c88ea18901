# Sphere path tracer: a Dafny model of its per-ray logic

This project models the core of a small Rust path tracer that renders
spheres. It covers the vector algebra, the fixed pinhole camera, the
ray–sphere intersection, the material record and the four material rules
(Lambertian, Metal, Dielectric, DiffuseLight), the quantisation of a pixel
colour into three 8-bit channels, and the integer and buffer arithmetic of
the GPU ray tracer. The buffer arithmetic covers the workgroup counts, the
row padding, and the loop that strips the padding from the copied rows.

Modelling choices:

- `f32` and `f64` values are `real`s. Every operation is then exact, so
  geometric identities such as the reflection identity hold as stated.
- The square root is a parameter `sqrt: real -> real`. It is constrained by
  `Numeric.IsSqrt` to be the non-negative root on non-negative reals.
  `powf(x, 5.0)` is the exact fifth power.
- Random draws are parameters:
  - a finite sequence of candidate vectors for `random_in_unit_sphere`;
  - the unit vector Lambertian adds to the normal;
  - the point in the unit sphere Metal scales by its fuzz;
  - the uniform number Dielectric compares with the reflectance.
- Some NaN paths are modelled exactly where the IEEE result is a definite
  decision:
  - a zero ray direction never hits a sphere;
  - Metal never scatters a zero direction;
  - a negative or zero-scale colour channel is written as 0;
  - the square root of a negative `1 - cos^2` never blocks refraction.
- `u32` arithmetic in the ray tracer wraps modulo 2^32, as in a release
  build. Its properties are proved under "no overflow" preconditions.
- The modules follow the source files:

  | module | source file |
  |---|---|
  | `Numeric` | standard-library helpers |
  | `Common` | `common.rs` |
  | `Vectors` | `vec3.rs` |
  | `Rays` | the `ray.at(t)` call in `sphere.rs` (`ray.rs` itself is not part of this model) |
  | `Hits` | the hit record |
  | `Spheres` | `sphere.rs` |
  | `Colors` | `color.rs` |
  | `Materials` | `material.rs` |
  | `Scattering` | `material/mod.rs` |
  | `LambertianMaterial`, `MetalMaterial`, `DielectricMaterial`, `DiffuseLightMaterial` | the four files under `material/` |
  | `Cameras` | `camera.rs` |
  | `SimpleRayTracer` | `raytracer/simple.rs` |

- `Sphere::new`, `Lambertian::new`, `Dielectric::new` and `DiffuseLight::new`
  only store their arguments. They are the datatype constructors of
  `Spheres.Sphere`, `LambertianMaterial.Lambertian`,
  `DielectricMaterial.Dielectric` and `DiffuseLightMaterial.DiffuseLight`.
- `src/ray.rs` is not part of this model. `Rays.At` follows the one use of
  `ray.at(t)`, the point `origin + t * direction`.
- `set_face_normal` is not defined in the files of this model. `Hits.SetFaceNormal`
  records a front face when the ray's direction points against the outward
  normal, and stores the normal turned against the ray.
- `src/hit.rs` declares `Hit` as `f64`. The model uses the record that
  `src/sphere.rs` fills in instead.

With refractive index 1, `scatter` does not always pass the ray through
undeviated. It still reflects when the uniform draw falls below Schlick's
grazing term `(1 - cos)^5` (`src/material/dielectric.rs:42-45`).
`DielectricMaterial.MatchedIndexGrazingReflects` proves that reflecting case.
`DielectricMaterial.MatchedIndexUndeviated` proves the undeviated direction
for the other draws.

`material.rs`'s `metal` stores the fuzz unclamped, while `Metal::new` caps it
at 1. Both are modelled as written.

## Model

| member | source | states |
|---|---|---|
| Numeric.Abs | src/vec3.rs:56 | the result is non-negative and is x or -x |
| Numeric.Min | src/material/dielectric.rs:38 | the result is at most both arguments and equal to one of them |
| Numeric.Pow5 | src/material/dielectric.rs:25 | x^5; Pow5UnitInterval keeps it in [0, 1] for x in [0, 1] |
| Numeric.Pow5UnitInterval | src/material/dielectric.rs:25 | the fifth power maps [0, 1] into [0, 1] |
| Numeric.WrapU32 | src/raytracer/simple.rs:124 | the result is a u32 congruent to x modulo 2^32, and x itself when it fits |
| Common.InRange | src/common.rs:1-3 | x lies strictly between min and max; InRangeExcludesEnds and InRangeEmpty state its edge cases |
| Common.InRangeExcludesEnds | src/common.rs:1-3 | the open-interval test rejects both of its ends |
| Common.InRangeEmpty | src/common.rs:1-3 | when min >= max no value lies in the interval |
| Common.Clamp | src/common.rs:5-13 | for min <= max the result lies in [min, max]; a value already inside is returned unchanged; a value below min gives min; a value above max and not below min gives max |
| Common.ClampIdempotent | src/common.rs:5-13 | clamping a clamped value changes nothing |
| Common.ClampMonotone | src/common.rs:5-13 | clamping preserves the order of two values |
| Vectors.Neg | src/vec3.rs:68-74 | componentwise negation; SubIsAddNeg proves it an involution and the inverse that subtraction adds |
| Vectors.Add | src/vec3.rs:82-88 | componentwise sum; AddSubCancel proves Sub undoes it |
| Vectors.Sub | src/vec3.rs:96-102 | componentwise difference; AddSubCancel and SubIsAddNeg relate it to Add and Neg |
| Vectors.Mul | src/vec3.rs:116-122 | componentwise product; DivUndoesMul proves Div undoes it |
| Vectors.Scale | src/vec3.rs:124-138 | the vector times a scalar, on either side; DivScalarUndoesScale proves DivScalar undoes it |
| Vectors.Div | src/vec3.rs:152-158 | componentwise quotient, for a divisor with no zero component |
| Vectors.DivScalar | src/vec3.rs:160-166 | the vector divided by a nonzero scalar |
| Vectors.AddSubCancel | src/vec3.rs:82-102 | componentwise addition and subtraction undo each other: (a + b) - b == a and (a - b) + b == a |
| Vectors.SubIsAddNeg | src/vec3.rs:68-102 | subtraction is addition of the negation, and negation is an involution |
| Vectors.DivScalarUndoesScale | src/vec3.rs:124-166 | dividing by a nonzero scalar undoes multiplying by it, both ways round |
| Vectors.DivUndoesMul | src/vec3.rs:116-158 | componentwise division by a vector with no zero component undoes componentwise multiplication |
| Vectors.Vec3Place.AddAssign | src/vec3.rs:76-80 | `+=` leaves the place holding the sum of its old value and the operand |
| Vectors.Vec3Place.SubAssign | src/vec3.rs:90-94 | `-=` leaves the place holding the difference of its old value and the operand |
| Vectors.Vec3Place.MulAssign | src/vec3.rs:104-108 | `*=` by a vector leaves the componentwise product with the old value |
| Vectors.Vec3Place.MulAssignScalar | src/vec3.rs:110-114 | `*=` by a scalar leaves the old value scaled |
| Vectors.Vec3Place.DivAssign | src/vec3.rs:140-144 | `/=` by a vector leaves the componentwise quotient of the old value |
| Vectors.Vec3Place.DivAssignScalar | src/vec3.rs:146-150 | `/=` by a nonzero scalar leaves the old value divided by it |
| Vectors.LengthSquared | src/vec3.rs:46-48 | the squared length is never negative |
| Vectors.Dot | src/vec3.rs:168-170 | sum of componentwise products; DotSymmetric and DotSelfIsLengthSquared state its symmetry and its tie to length_squared |
| Vectors.DotSelfIsLengthSquared | src/vec3.rs:168-170 | dot(v, v) equals length_squared(v) |
| Vectors.DotSymmetric | src/vec3.rs:168-170 | the dot product is symmetric |
| Vectors.Cross | src/vec3.rs:172-178 | the cross product; CrossOrthogonal proves it orthogonal to both operands |
| Vectors.CrossOrthogonal | src/vec3.rs:172-178 | cross(u, v) is orthogonal to both u and v |
| Vectors.Length | src/vec3.rs:42-44 | the length is non-negative and squares to length_squared |
| Vectors.Unit | src/vec3.rs:50-52 | unit of a nonzero vector has squared length 1, is parallel to it (zero cross product) and points the same way (positive dot product) |
| Vectors.IsNearZero | src/vec3.rs:54-57 | every component below 1e-8 in absolute value; NearZeroMeansShort relates it to the squared length |
| Vectors.NearZeroMeansShort | src/vec3.rs:54-57 | a vector near zero (every component below 1e-8 in absolute value) has squared length below 3e-16, and one with squared length below 1e-16 is near zero |
| Vectors.Reflect | src/vec3.rs:180-182 | v - 2 dot(v, n) n; ReflectNegatesNormalComponent, ReflectInvolution and ReflectPreservesLength state its geometry |
| Vectors.ReflectNegatesNormalComponent | src/vec3.rs:180-182 | with a unit normal n, dot(reflect(v, n), n) == -dot(v, n) |
| Vectors.ReflectInvolution | src/vec3.rs:180-182 | with a unit normal, reflecting twice gives back the vector |
| Vectors.ReflectPreservesLength | src/vec3.rs:180-182 | with a unit normal, reflection keeps the squared length |
| Vectors.DotOfUnitVectors | src/vec3.rs:168-170 | the dot product of two unit vectors lies in [-1, 1] |
| Vectors.Refract | src/vec3.rs:184-189 | with cos = min(dot(-v, n), 1), the perpendicular part ratio * (v + cos n) plus the parallel part -sqrt(abs(1 - perp^2)) n; RefractRatioOneIsIdentity states ratio 1 |
| Vectors.RefractRatioOneIsIdentity | src/vec3.rs:184-189 | refracting a unit vector with ratio 1 through a unit normal it meets head-on or obliquely from the front leaves it unchanged |
| Vectors.RandomInUnitSphere | src/vec3.rs:191-200 | the returned vector is the first candidate with squared length below 1; every earlier candidate was rejected for squared length >= 1 |
| Hits.SetFaceNormal | src/sphere.rs:64-65 | front_face holds exactly when the ray's direction points against the outward normal; the stored normal is the outward normal or its negation and never points along the ray; the other fields are kept |
| Rays.At | src/sphere.rs:61 | origin + t * direction; HitScanOnSurface and SurfaceQuadratic state where it lies |
| Spheres.QuadA | src/sphere.rs:30 | dot(direction, direction); its zero case is the zero direction HitScan rejects |
| Spheres.HalfB | src/sphere.rs:31 | dot(direction, origin - center) |
| Spheres.QuadC | src/sphere.rs:32 | length_squared(origin - center) - radius^2 |
| Spheres.Discriminant | src/sphere.rs:34 | half_b^2 - a c; QuadraticNoRoot and SurfacePoints tie its sign to the existence of surface points |
| Spheres.NearRoot | src/sphere.rs:43-44 | (-half_b - sqrt(discriminant)) / a; SurfacePoints and RootsOrdered state it is the nearer surface point |
| Spheres.FarRoot | src/sphere.rs:48 | (-half_b + sqrt(discriminant)) / a; SurfacePoints and RootsOrdered state it is the farther surface point |
| Spheres.OutwardNormal | src/sphere.rs:64 | (position - center) / radius; OutwardNormalOnSurface states its length and orientation |
| Spheres.HitScan | src/sphere.rs:27-71 | a negative discriminant or a zero direction gives no hit; a hit's t lies strictly inside (t_min, t_max) and is one of the two roots; the near root is taken whenever it is in range, and the far root otherwise when it is in range; position == ray.at(t), material == Some(sphere.material); the normal is plus or minus (position - center) / radius, faces the ray, and front_face records which |
| Spheres.SurfaceQuadratic | src/sphere.rs:28-34 | the squared distance of ray.at(t) from the center minus radius^2 is a t^2 + 2 half_b t + c |
| Spheres.QuadraticRoots | src/sphere.rs:34-48 | for a > 0 and a non-negative discriminant, the quadratic vanishes exactly at (-half_b - sqrt_d)/a and (-half_b + sqrt_d)/a |
| Spheres.QuadraticNoRoot | src/sphere.rs:34-39 | for a > 0 and a negative discriminant the quadratic has no root |
| Spheres.SurfacePoints | src/sphere.rs:28-55 | along a ray with nonzero direction, the points on the surface are exactly those at the two roots, and there are none when the discriminant is negative |
| Spheres.RootsOrdered | src/sphere.rs:44-48 | the root tried first is never beyond the other one |
| Spheres.HitScanOnSurface | src/sphere.rs:28-61 | a reported hit position lies on the sphere: length_squared(position - center) == radius^2 |
| Spheres.HitScanNearest | src/sphere.rs:41-55 | no point of the surface lies along the ray strictly between t_min and the reported t |
| Spheres.HitScanMiss | src/sphere.rs:36-55 | when no hit is reported, no point of the surface lies along a ray with nonzero direction strictly inside (t_min, t_max) |
| Spheres.OutwardNormalOnSurface | src/sphere.rs:64 | on the surface the outward normal has unit length and its dot product with position - center is the radius, so it points inward for a negative radius |
| Colors.Quantize | src/color.rs:23-25 | the channel is the floor of 256 * clamp(0, g, 0.999), an integer in [0, 255]; g <= 0 gives 0 and g >= 0.999 gives 255 |
| Colors.QuantizeMonotone | src/color.rs:23-25 | a larger gamma-corrected value never gives a smaller channel |
| Colors.Channel | src/color.rs:13-25 | every channel is in [0, 255]; for a positive sample count and a non-negative component it is the quantised sqrt(component / samples); for a sample count that is not negative, a component <= 0 gives 0 |
| Colors.WriteColor | src/color.rs:8-28 | writes three channels in [0, 255], in r, g, b order, each computed from its own component only |
| Colors.ChannelMonotone | src/color.rs:13-25 | with a positive sample count a larger component never gives a smaller channel |
| Colors.ChannelSaturates | src/color.rs:13-25 | a component whose per-sample average is at least 1 gives 255 |
| Colors.BlackPixel | src/color.rs:13-25 | black is written as 0 0 0 for every sample count that is not negative |
| Cameras.New | src/camera.rs:12-29 | the camera sits at the origin; horizontal is (2 * aspect_ratio, 0, 0), vertical (0, 2, 0), and bottom_left (-aspect_ratio, -1, -1) |
| Cameras.GetRay | src/camera.rs:31-36 | every ray starts at the camera origin |
| Cameras.GetRayShift | src/camera.rs:31-36 | for any camera, moving from (u2, v2) to (u1, v1) keeps the origin and adds (u1 - u2) horizontal spans and (v1 - v2) vertical spans to the direction |
| Cameras.GetRayClosedForm | src/camera.rs:12-36 | for the camera `new` builds, the ray through (u, v) leaves the origin with direction ((2u - 1) * aspect_ratio, 2v - 1, -1) |
| Cameras.RaysLeaveOriginTowardsViewport | src/camera.rs:17-34 | every ray starts at (0, 0, 0), and its direction has z-component -1 whatever u and v are |
| Cameras.CenterAndCorner | src/camera.rs:21-34 | get_ray(0.5, 0.5) points along (0, 0, -1), and get_ray(0, 0) points at bottom_left |
| Cameras.CoordinatesSeparate | src/camera.rs:18-34 | the direction's x depends only on u and its y only on v |
| Materials.KindOf | src/material.rs:7-13 | a record names a kind exactly when its tag is below 4 |
| Materials.Lambertian | src/material.rs:15-23 | tag 0 (Lambertian kind), the given colour, every other numeric field -1 |
| Materials.Metal | src/material.rs:25-33 | tag 1 (Metal kind), the given colour and the fuzz unclamped, the other numeric fields -1 |
| Materials.Dielectric | src/material.rs:35-43 | tag 2 (Dielectric kind), black colour, the given refractive index, the other numeric fields -1 |
| Materials.DiffuseLight | src/material.rs:45-53 | tag 3 (DiffuseLight kind), the given colour and emission intensity, the other numeric fields -1 |
| Materials.Rebuild | src/material.rs:15-53 | a record is rebuilt through a constructor exactly when its tag names a kind, and keeps its tag |
| Materials.RebuildRoundTrip | src/material.rs:15-53 | the tag and the fields a kind uses determine the record: each constructor's output is rebuilt exactly |
| Materials.TagsDistinct | src/material.rs:15-53 | records from different constructors never share a tag |
| LambertianMaterial.ScatterDirection | src/material/lambertian.rs:20-24 | the direction is normal + draw, or the normal alone when that sum is near zero |
| LambertianMaterial.Scatter | src/material/lambertian.rs:19-30 | always scatters, from the hit position, along ScatterDirection, attenuated by the albedo |
| LambertianMaterial.Emit | src/material/lambertian.rs:32-34 | emits black |
| LambertianMaterial.ScatterDirectionNotDegenerate | src/material/lambertian.rs:20-24 | with a unit normal the scattered direction is never near zero |
| LambertianMaterial.ScatterIntoHemisphere | src/material/lambertian.rs:20-24 | with a unit normal and a unit draw the scattered direction never points below the surface |
| MetalMaterial.New | src/material/metal.rs:14-19 | keeps the albedo; caps the fuzz at 1 and leaves a fuzz at or below 1 unchanged, with no lower bound |
| MetalMaterial.ScatteredDirection | src/material/metal.rs:24-26 | reflect(unit(dir), normal) + fuzz * draw; PerfectMirrorUnitDirection states its length for fuzz 0 |
| MetalMaterial.Scatter | src/material/metal.rs:23-37 | scatters exactly when the direction is nonzero and reflect(unit(dir), normal) + fuzz * draw has a positive dot product with the normal; the scattered ray then starts at the hit position with that direction and the albedo as attenuation |
| MetalMaterial.Emit | src/material/metal.rs:39-41 | emits black |
| MetalMaterial.PerfectMirror | src/material/metal.rs:23-36 | with fuzz 0 and a unit normal, the ray scatters exactly when it comes in against the normal, along reflect(unit(dir), normal) |
| MetalMaterial.PerfectMirrorUnitDirection | src/material/metal.rs:24-26 | with fuzz 0 and a unit normal the scattered direction has unit length |
| DielectricMaterial.R0 | src/material/dielectric.rs:23-24 | r0 is non-negative, and at most 1 for a non-negative index |
| DielectricMaterial.Reflectance | src/material/dielectric.rs:21-26 | for a non-negative index and cos in [0, 1] the reflectance lies in [r0, 1] |
| DielectricMaterial.ReflectanceHeadOn | src/material/dielectric.rs:21-26 | reflectance(1, n) == r0(n) |
| DielectricMaterial.ReflectanceMatchedIndex | src/material/dielectric.rs:21-26 | with index 1, r0 is 0 and reflectance(c, 1) == (1 - c)^5, which is 0 head-on |
| DielectricMaterial.RefractiveRatio | src/material/dielectric.rs:31-35 | the ratio is 1 / ref_idx on the front face and ref_idx on the back face |
| DielectricMaterial.CosTheta | src/material/dielectric.rs:38 | cos_theta is the smaller of dot(-unit_direction, normal) and 1: it is at most both and equal to one of them |
| DielectricMaterial.CannotRefract | src/material/dielectric.rs:39-41 | ratio * sqrt(1 - cos^2) > 1, false when 1 - cos^2 is negative (a NaN comparison); EnteringDenserMediumCanRefract states when it fails |
| DielectricMaterial.Reflects | src/material/dielectric.rs:38-44 | cannot_refract or reflectance(cos, ratio) > draw; Scatter reflects exactly when it holds |
| DielectricMaterial.Scatter | src/material/dielectric.rs:30-54 | always scatters, from the hit position, with white attenuation; it reflects unit(dir) when refraction is impossible or the reflectance exceeds the draw, and refracts it with the face's ratio otherwise |
| DielectricMaterial.TotalInternalReflection | src/material/dielectric.rs:41-48 | when ratio * sin(theta) > 1 the result is the mirror direction and does not depend on the draw |
| DielectricMaterial.EnteringDenserMediumCanRefract | src/material/dielectric.rs:31-41 | entering through the front face with ref_idx >= 1, total internal reflection never occurs |
| DielectricMaterial.RefractsAboveReflectance | src/material/dielectric.rs:41-48 | when refraction is possible and the draw is at least the reflectance, the ray refracts |
| DielectricMaterial.MatchedIndexUndeviated | src/material/dielectric.rs:30-54 | with ref_idx 1, a unit normal facing the ray and a draw at least (1 - cos)^5, the ray goes on along its own unit direction |
| DielectricMaterial.MatchedIndexGrazingReflects | src/material/dielectric.rs:38-45 | with ref_idx 1, a draw below (1 - cos)^5 takes the reflection branch, so `Scatter` sends the ray along reflect(unit(dir), normal), which differs from unit(dir) unless the ray grazes the surface |
| DielectricMaterial.GrazingReflectance | src/material/dielectric.rs:19-26 | with ref_idx 1, a number below (1 - cos)^5 is below the reflectance |
| DiffuseLightMaterial.Scatter | src/material/diffuse_light.rs:22-24 | never scatters |
| DiffuseLightMaterial.Emit | src/material/diffuse_light.rs:26-28 | emits the colour times the intensity, channel by channel |
| DiffuseLightMaterial.EmitIndependentOfRayAndHit | src/material/diffuse_light.rs:26-28 | the emitted light depends on neither the ray nor the hit |
| DiffuseLightMaterial.EmitAtUnitAndZeroIntensity | src/material/diffuse_light.rs:26-28 | intensity 1 emits the colour itself and intensity 0 emits black |
| SimpleRayTracer.NewConfig | src/raytracer/simple.rs:119-125 | keeps width and height, sets max_depth to 50, and sets object_count to the number of spheres (congruent modulo 2^32, equal when it fits) |
| SimpleRayTracer.WorkgroupCount | src/raytracer/simple.rs:213-217 | without overflow, (dim + 7) / 8 groups of 8 cover dim, one fewer would not, and dim 0 needs none |
| SimpleRayTracer.BytesPerRow | src/raytracer/simple.rs:220-221 | without overflow a row holds 4 * width bytes |
| SimpleRayTracer.PaddedBytesPerRow | src/raytracer/simple.rs:222-223 | without overflow the padded row is the least multiple of 256 that is at least bytes_per_row |
| SimpleRayTracer.OutputBufferSize | src/raytracer/simple.rs:225 | without overflow the buffer holds padded_bytes_per_row * height bytes |
| SimpleRayTracer.Stripped | src/raytracer/simple.rs:267-268 | the first bytes_per_row bytes of each padded chunk, in order, or None for a panic; StrippedLength and StrippedPixel state its size and contents |
| SimpleRayTracer.StripRowPadding | src/raytracer/simple.rs:265-269 | the loop's result is Stripped: the first bytes_per_row bytes of each padded chunk, concatenated in row order, or None where the source panics |
| SimpleRayTracer.PrependTwice | src/raytracer/simple.rs:267-268 | appending two slices in turn is appending their concatenation |
| SimpleRayTracer.StrippedLength | src/raytracer/simple.rs:265-269 | a buffer of height whole padded rows strips, without panicking, to bytes_per_row * height bytes |
| SimpleRayTracer.StrippedPixel | src/raytracer/simple.rs:267-268 | pixels[r * bytes_per_row + k] == data[r * padded_bytes_per_row + k] for every row r and every k < bytes_per_row |
| SimpleRayTracer.StripsToImage | src/raytracer/simple.rs:265-275 | height padded rows of 4 * width useful bytes strip to width * height * 4 bytes |
| SimpleRayTracer.ZeroWidthPanics | src/raytracer/simple.rs:220-268 | a zero-wide image has padded row length 0, on which `chunks` panics |
| SimpleRayTracer.ImageSizeMatches | src/raytracer/simple.rs:220-275 | for a nonzero width without overflow, a buffer of output_buffer_size bytes strips to exactly width * height * 4 bytes, the size `from_raw` requires |

## Left out

- GPU plumbing in `src/raytracer/simple.rs` is left out: device and adapter requests, shaders, bind groups, command encoding, submission, mapping and polling. These are calls into `wgpu` and asynchronous device work. The WGSL shaders that do the actual path tracing are not part of this model.
- `src/main.rs` is left out: the window, the PPM header and printing, and the scene literals. The `ray_color` integrator and `HittableList` it uses are not defined in the files of this model.
- Floating-point rounding, infinities and NaN are left out except where noted above. The mixing of `f32` and `f64` is also left out.
- The random number source (`random_in_range`, `rand::rng()`) is left out. Its draws are parameters.
- `random_unit_vector` is left out; it is the `unitDraw` parameter of `LambertianMaterial.Scatter`.
- `Display` for `Vec3` is left out: it is float-to-text formatting.
- `bytemuck` byte layout (`Pod`, `#[repr(C)]`) is left out, because it depends on the compiler.
- Vectors.RandomInUnitSphere: the source loops until a candidate is accepted. The model draws from a finite sequence and returns None when it runs out.
- Vectors.Unit: requires a nonzero vector, because the source divides by a zero length and gets NaN.
- Vectors.Refract: only the ratio-1 identity is proved. Its other properties are numeric.
- Spheres.HitScan: requires a nonzero radius, because a zero radius makes the normal NaN.
- DielectricMaterial.Scatter: requires a nonzero incoming direction and a refractive index other than 0 and -1. These are where the source divides by zero; its NaN or infinite results are not modelled.
- DielectricMaterial.Reflectance: requires an index other than -1, where `1 + ref_idx` is zero.
- SimpleRayTracer.WorkgroupCount, SimpleRayTracer.BytesPerRow, SimpleRayTracer.PaddedBytesPerRow and SimpleRayTracer.OutputBufferSize: the properties are stated only when no `u32` overflow occurs. The wrapped value itself is modelled, as a release build computes it. A debug build would panic instead.
- The `Vec::with_capacity` hint at `src/raytracer/simple.rs:265` is left out. It has no effect on the result.
