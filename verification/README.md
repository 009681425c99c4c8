# rustracer core in Dafny

A model of the core of `rustracer`, a small Monte-Carlo ray tracer:

- **Colours** (`colour.dfy`, from `src/material/colour.rs`): RGB colours with
  channelwise and scalar arithmetic and their compound-assignment forms.
  `clamped` scales a colour down so that its brightest channel is at most 1.
  Colours convert to and from 8-bit image pixels.
- **Triangles** (`triangle.dfy`, from `src/primitives/triangle.rs`): a triangle
  caches a unit normal computed from its vertices. The ray test is
  Möller–Trumbore. Local 2D coordinates are ratios of doubled areas.
  Transforms map the vertices and rebuild the triangle.
- **Viewport** (`viewport.dfy`, from `src/viewport.rs`): the screen size and the
  perspective projection, plus the per-pixel sub-sample offsets drawn from a
  noise generator. It normalizes screen points into the centred unit square
  and casts one ray per offset.
- **Scene** (`scene.dfy`, from `src/scene.rs`): two lists kept in step, one of
  triangles and one of their materials. The closest-hit search is a first-wins
  minimum over distances. `trace_until` recurses: at a hit below the depth
  limit it casts a beam of jittered reflected rays one step deeper, and it
  averages their light. An instrumented copy of `trace_until` also records the
  deepest step and the number of calls, and it is proved to compute the same
  result, so its depth and call bounds are bounds on `trace_until` itself.

`geometry.dfy` holds the vector algebra the other modules share (nalgebra's
`Point3`/`Vector3`, dot and cross products, the scalar triple product, Cramer's
rule). `optional.dfy` holds `Option`.

Arithmetic is over exact reals. The operations that leave the rationals are
never defined here: the square root behind the Euclidean norm `norm` and the
normalization `unit`, which are function parameters; the tangent of half the
field of view that `Perspective3::new` computes, which sits inside the
`unproject` parameter; and the cosine, sine, `PI` and `rotation_between` that
build the beam offsets, which sit inside the offset oracle. Where a proof needs facts
about the norm, it asks for them explicitly, as `Geometry.Homogeneous` and
`Geometry.Definite`. Randomness (the viewport noise and the beam offsets) is
also a parameter. So are the reflection (`get_reflected_ray`), the primitive's
size (`get_size`) and the projection's `unproject_point`. The scene groups its
parameters in `Scenes.Environment`. The beam offset oracle is indexed by the
path of beam indices that leads to a call, so every beam gets its own draws.

## Model

| member | source | states |
|---|---|---|
| Colours.AddIsAbelian | src/material/colour.rs:43-63 | Adding black changes nothing. Addition commutes and associates. Subtraction undoes addition. |
| Colours.MulDistributes | src/material/colour.rs:43-77 | Channelwise multiplication distributes over addition. |
| Colours.ScaleIsGreyProduct | src/material/colour.rs:99-105 | Scaling by `s` on either side of `*` equals channelwise multiplication by the grey `(s, s, s)`. So scalar multiplication is commutative and acts per channel. |
| Colours.DivUndoesMul | src/material/colour.rs:71-119 | Channelwise division undoes channelwise multiplication. Scalar division undoes scalar multiplication, and it equals multiplication by the reciprocal. |
| Colours.ScaleUndoesDivScalar | src/material/colour.rs:99-119 | Multiplying back by `s` undoes scalar division by `s`. |
| Colours.AddAssign | src/material/colour.rs:51-55 | `+=`, updating one channel at a time, ends equal to the binary `+`. |
| Colours.SubAssign | src/material/colour.rs:65-69 | `-=` ends equal to the binary `-`. |
| Colours.MulAssign | src/material/colour.rs:79-83 | `*=` by a colour ends equal to the binary `*`. |
| Colours.DivAssign | src/material/colour.rs:93-97 | `/=` by a colour with no zero channel ends equal to the binary `/`. |
| Colours.ScaleAssign | src/material/colour.rs:107-111 | `*=` by a scalar ends equal to scalar `*`. |
| Colours.DivScalarAssign | src/material/colour.rs:121-125 | `/=` by a nonzero scalar ends equal to scalar `/`. |
| Colours.MaxChannel | src/material/colour.rs:13-17 | The largest channel is one of the channels and is no smaller than any of them. |
| Colours.Clamped | src/material/colour.rs:12-19 | If the largest channel is at most 1, the colour is unchanged. Otherwise the colour is divided by its largest channel, and the result's largest channel is exactly 1. Every channel of the result is at most 1. |
| Colours.ClampedIdempotent | src/material/colour.rs:12-19 | Clamping a clamped colour changes nothing. |
| Colours.ClampedKeepsHue | src/material/colour.rs:12-19 | A clamped colour is a positive multiple of the original, so the ratios between channels are kept. |
| Colours.ClampedExampleBright | src/material/colour.rs:133-139 | (0.5, 1, 2) clamps to (0.25, 0.5, 1). |
| Colours.ClampedExampleInRange | src/material/colour.rs:141-146 | (0.5, 1, 0.75) is unchanged by clamping. |
| Colours.CastU8 | src/material/colour.rs:36-38 | Rust's saturating float-to-`u8` cast. Values at or below 0 give 0, and values at or above 255 give 255. In between, the value is truncated towards zero. |
| Colours.FromRgb | src/material/colour.rs:22-30 | Each byte divided by 255 gives a channel in [0, 1], and 255 times the channel is the byte. |
| Colours.ToRgb | src/material/colour.rs:32-41 | Each byte is the saturating cast of 255 times the channel of the clamped colour. |
| Colours.ByteRoundTrip | src/material/colour.rs:22-41 | Dividing a byte by 255 and casting 255 times the result back gives the byte. |
| Colours.RgbRoundTrip | src/material/colour.rs:22-41 | Converting a pixel to a colour and back gives the same pixel. |
| Colours.QuantisationError | src/material/colour.rs:22-41 | Converting a colour in [0, 1] to a pixel and back moves each channel down by less than 1/255. |
| Colours.FromRgbExample | src/material/colour.rs:311-324 | Pixels (255, 0, 0), (0, 255, 0) and (0, 0, 255) convert to colours (1, 0, 0), (0, 1, 0) and (0, 0, 1). |
| Colours.ToRgbExampleUnit | src/material/colour.rs:329-331 | Colour (1, 0, 0) converts to pixel (255, 0, 0). |
| Colours.ToRgbExampleInRange | src/material/colour.rs:327-344 | Colour (0, 0.25, 0.5) converts to pixel (0, 63, 127). |
| Colours.ToRgbExampleSaturated | src/material/colour.rs:327-344 | Colour (0, 2, 0) converts to pixel (0, 255, 0), through clamping. |
| Colours.ToRgbExampleBright | src/material/colour.rs:327-344 | Colour (0, 0, 5) converts to pixel (0, 0, 255). |
| Triangles.New | src/primitives/triangle.rs:17-37 | The vertices are stored as given. The normal is the normalized cross product of the two edges from `v0` (`Valid`). |
| Triangles.NormalIsPerpendicular | src/primitives/triangle.rs:33-37 | When `unit` rescales its argument, the computed normal is perpendicular to both edges, so it is normal to the triangle's plane. |
| Triangles.SetV | src/primitives/triangle.rs:24-31 | Afterwards `get_v(i)` returns the given point, and `get_v(j)` for every other `j` returns what it did before. The normal is recomputed, so `Valid` holds again. |
| Triangles.Intersects | src/primitives/triangle.rs:51-73 | The three rejections: a determinant within epsilon of 0, parameters outside the triangle, and a hit behind the origin. A reported point lies on the ray at the computed parameter `t >= 0`. |
| Triangles.IntersectsSound | src/primitives/triangle.rs:51-73 | A reported hit is `origin + t * direction` with `t >= 0`. It is also `v0 + u e1 + v e2` with `u, v >= 0` and `u + v <= 1`: the same point, inside the triangle. |
| Triangles.IntersectsComplete | src/primitives/triangle.rs:51-73 | If the ray is not parallel and meets the closed triangle at some `t >= 0`, `intersects` reports exactly that point. |
| Triangles.SolveByTriples | src/primitives/triangle.rs:52-68 | The source's `u`, `v` and `t` (dot products with `pvec` and `qvec` times `inv_det`) are Cramer's ratios of triple products, and the determinant is the triple product of `e1`, the direction and `e2`. |
| Triangles.SolveRecovers | src/primitives/triangle.rs:59-68 | When the ray's offset from `v0` is `a e1 + b e2 - s d` and the determinant is nonzero, the source's formulas give back exactly `u = a`, `v = b` and `t = s`. |
| Triangles.SubAreas | src/primitives/triangle.rs:39-43 | For `p = v0 + a e1 + b e2` with `a, b >= 0`, the doubled areas of `(v0, v2, p)` and `(v0, v1, p)` are `a` and `b` times the triangle's own doubled area. |
| Triangles.LocalCoordinatesInvertPointAt | src/primitives/triangle.rs:75-81 | For a non-degenerate triangle and `a, b >= 0`, the local coordinates of `v0 + a e1 + b e2` are `(a, b)`. |
| Triangles.LocalCoordinatesOfVertices | src/primitives/triangle.rs:75-81 | Vertices 0, 1 and 2 have local coordinates (0, 0), (1, 0) and (0, 1). |
| Triangles.HitLocalCoordinates | src/primitives/triangle.rs:51-81 | A triangle that is hit is non-degenerate, and the local coordinates of the hit point are the `(u, v)` that `intersects` computed. |
| Triangles.DegenerateIsParallel | src/primitives/triangle.rs:51-56 | A degenerate triangle, whose edges have a zero cross product, has determinant 0 for every ray, so it is never hit. |
| Triangles.Apply | src/primitives/triangle.rs:84-121 | Every transform maps each vertex by its point action. The triangle is rebuilt through `new`, so the normal is recomputed (`Valid`). |
| Triangles.ApplyComposes | src/primitives/triangle.rs:84-121 | Transforming twice equals transforming once by the composed point action, so `rotation * (translation * tri)` equals `(rotation * translation) * tri`. |
| Triangles.MultiplyMatrixKeepsPoints | src/primitives/triangle.rs:84-86 | `Matrix3 * Triangle` maps the point with local coordinates `(a, b)` of the triangle to the point with the same local coordinates of the result. |
| Triangles.MultiplyMatrixExample | src/primitives/triangle.rs:189-211 | The matrix test case: `mat * tri` is the triangle built from `mat` times each vertex, with the vertices worked out. |
| Triangles.ApplyIgnoresNormal | src/primitives/triangle.rs:84-121 | The result of a transform depends only on the vertices, not on the cached normal. |
| Triangles.TranslationKeepsNormal | src/primitives/triangle.rs:92-94 | A translation moves every vertex by the offset and leaves the normal of a valid triangle unchanged. |
| Viewports.NewViewport | src/viewport.rs:17-38 | The width and height are stored. The projection's aspect ratio is width / height. There are `point_rays_count` offsets, each half of the noise sampled at (0, 0). |
| Viewports.DrawOffsets | src/viewport.rs:25-31 | Makes exactly `n` draws. Each one is the noise at (0, 0), halved on both axes. |
| Viewports.NewAccessors | src/viewport.rs:40-54 | `get_width`, `get_height` and `get_rays_count` report what `new` was given. |
| Viewports.NewOffsetsCoincide | src/viewport.rs:25-31 | All offsets of a new viewport are equal. |
| Viewports.NormalizePoint | src/viewport.rs:56-61 | Points on the screen map into [-0.5, 0.5] on both axes. |
| Viewports.NormalizeRoundTrip | src/viewport.rs:56-61 | Normalization is a bijection, and `Denormalize` is its inverse on both sides. |
| Viewports.NormalizeCorners | src/viewport.rs:110-133 | The four corners and the centre of the screen map to (±0.5, ±0.5) and (0, 0), with y flipped. |
| Viewports.NormalizeMonotone | src/viewport.rs:56-61 | Normalization keeps the order along x and reverses it along y, in both directions of the iff. |
| Viewports.CastRay | src/viewport.rs:63-84 | One ray per offset, in the order of the offsets. Ray `i` is the ray through the pixel moved by offset `i`. |
| Viewports.RayThroughReachesFar | src/viewport.rs:66-83 | The ray through a point starts at the unprojection of the normalized point on the near plane (z = -1). For any `unit` that rescales a vector by a positive factor `k`, it reaches the far-plane unprojection (z = 1) at parameter `1 / k(far - near)`. |
| Geometry.NewRay | src/ray.rs:17-22 | `Ray::new` keeps the origin and normalizes the direction with `unit`. |
| Viewports.CastRaysOfNewCoincide | src/viewport.rs:25-31 | Through a given pixel, every ray of a new viewport is the same ray. |
| Scenes.FromMaterial | src/scene.rs:174-181 | The trace result copies the material's diffuse and emission. |
| Scenes.FromMaterialRoundTrip | src/scene.rs:174-181 | The conversion loses nothing. It is inverse to reading the result back as a material. |
| Scenes.AddLight | src/scene.rs:162-164 | The emission becomes the sum of both emissions, and the diffuse colour is kept. |
| Scenes.AddLightIgnoresOtherDiffuse | src/scene.rs:162-164 | The other result's diffuse colour never matters. |
| Scenes.ApplyTo | src/scene.rs:166-171 | Both colours of the result are `material.emission + material.diffuse * incoming emission`. |
| Scenes.ApplyToReadsEmission | src/scene.rs:166-171 | Only the incoming emission matters. A material with black diffuse shows only its own emission. |
| Scenes.TraceResultExamples | src/scene.rs:525-568 | The test examples for `From<Material>` and `add_light`. |
| Scenes.AccumulateLightSums | src/scene.rs:72-74 | The beam loop keeps the diffuse colour and adds the total emission of the sub-results. |
| Scenes.NewPrimitives | src/scene.rs:120-125 | A new collection is empty and its lists are in step. |
| Scenes.AddPrimitive | src/scene.rs:127-130 | Both lists grow by one, with the new pair at the end. Earlier entries are unchanged. The lists stay in step. |
| Scenes.AddThenGet | src/scene.rs:127-158 | After `add`, the getters return the new pair at the old length and the old pairs below it. |
| Scenes.ClosestAmong | src/scene.rs:133-150 | The scan over the first `n` primitives returns `None` iff none of them is hit. Otherwise it returns a hit that meets `IsClosest`. |
| Scenes.NearerHitIsClosest | src/scene.rs:142-144 | A hit strictly nearer than the best so far becomes the closest among the primitives scanned. |
| Scenes.FartherHitKeepsClosest | src/scene.rs:142-144 | A hit that is not strictly nearer leaves the best so far closest, so an equal distance keeps the earlier index, as `min_by` returns the first minimum. |
| Scenes.ClosestHit | src/scene.rs:133-150 | Returns `None` iff no primitive is hit. Otherwise the hit's point is its primitive's intersection, and no hit is nearer. Every earlier hit is strictly farther, so ties go to the lowest index. |
| Scenes.ClosestIsUnique | src/scene.rs:133-150 | At most one hit meets the closest-hit specification. |
| Scenes.ClosestHitCharacterised | src/scene.rs:133-150 | `closest_hit` returns `h` iff `h` meets the specification. |
| Scenes.ClosestHitOfNothing | src/scene.rs:433-438 | An empty collection has no closest hit. |
| Scenes.NewScene | src/scene.rs:39-46 | The parameters are stored and there are no triangles. |
| Scenes.AddTriangle | src/scene.rs:49-51 | Adds the pair to the triangles and leaves the rest of the scene unchanged. |
| Scenes.GetBeam | src/scene.rs:102-115 | Exactly `beam_rays_count` rays, all from the reflected ray's origin. Ray `k` points along the normalized reflected direction plus offset `k`. |
| Scenes.BeamAt | src/scene.rs:70-72 | At a hit, the beam has `beam_rays_count` rays, and every one starts at the origin of the ray reflected off the hit primitive's normal at the hit point. |
| Scenes.SubTraces | src/scene.rs:72-75 | There is one sub-trace per beam ray, and sub-trace `k` is `trace_until` of beam ray `k` one step deeper. |
| Scenes.Incoming | src/scene.rs:64-76 | The light a beam brings has black diffuse colour. Its emission is the summed emission of the sub-traces divided by `beam_rays_count`. |
| Scenes.TraceUntil | src/scene.rs:58-81 | A miss gives the default material's colours. After a hit, the diffuse colour equals the emission passed upwards. |
| Scenes.Trace | src/scene.rs:54-56 | On a miss, `trace` shows the default material's diffuse colour. On a hit, it shows the same light that the trace passes upwards as emission. |
| Scenes.TraceMiss | src/scene.rs:59-62 | A ray that hits nothing gives the default material, at any step. |
| Scenes.TraceAtDepth | src/scene.rs:66-80 | A hit at or beyond the depth gives `m.emission + m.diffuse * default.emission` in both colours, where `m` is the hit material. |
| Scenes.TraceBelowDepth | src/scene.rs:66-80 | A hit below the depth traces `beam_rays_count` sub-rays. It then gives `m.emission + m.diffuse * (sum of their emissions / beam_rays_count)`. |
| Scenes.NoRecursionTrace | src/scene.rs:54-81 | With depth 0, `trace` shades the first hit with the default emission, or reports the default diffuse on a miss. It never consults the reflection or the beam. |
| Scenes.EmptySceneTrace | src/scene.rs:267-282 | An empty scene shows the default material's diffuse colour along every ray. |
| Scenes.TraceCounted | src/scene.rs:58-81 | `trace_until` instrumented with the deepest step reached and the number of calls made. The deepest step is at least the starting step, and there is at least one call. A hit below the depth goes at least one step deeper. |
| Scenes.TraceCountedAgrees | src/scene.rs:58-81 | The instrumented trace computes exactly the result of `trace_until`, for every ray, step and path. |
| Scenes.TraceCountedDepth | src/scene.rs:58-81 | Started at a step no deeper than the recursion depth, no nested `trace_until` call has a step beyond the depth. |
| Scenes.TraceCountedCalls | src/scene.rs:58-81 | The number of `trace_until` calls is at most `1 + b + ... + b^n`, for `b = beam_rays_count` and `n` the steps left. |

## Left out

- `src/main.rs` and `src/lib.rs`: image output, command-line set-up and type aliases. They are not part of this model.
- `src/ray.rs`: `Ray` is a plain record with `Ray::new` normalizing the direction. Its transform operators are not part of this model.
- Floating point: `f32` rounding, infinities and NaN are not modelled. Every value is an exact real, and `Scalar::EPSILON` is exactly 2^-23. The `u32`-to-`f32` conversions of the screen sizes (src/viewport.rs:32-34) and of the screen-point coordinates (src/viewport.rs:68) are exact here; in `f32` neither is exact above 2^24.
- Colours.Div: channelwise division requires every divisor channel to be nonzero. In `f32`, a zero channel gives infinity or NaN.
- Colours.DivScalar: scalar division requires a nonzero divisor, for the same reason.
- Viewports.NewViewport: requires a positive width and height. A width of 0 passes the aspect ratio `0 / height = 0` to `Perspective3::new`, which panics on a zero aspect ratio. A height of 0 (with a positive width) gives an infinite aspect ratio, and `normalize_point` then divides by zero. Neither path is modelled.
- Viewports.NewViewport: the `OpenSimplex` noise generator is a parameter `noise`. The projection is kept as its four parameters. `Perspective3::new`'s panic when `znear == zfar` is not modelled; it does not check the field of view.
- Viewports.CastRay: `unproject_point` is a parameter. The ray-casting test checks that ray origins lie within √0.5 of (0, 0, -1), which depends on the concrete projection and is not stated.
- `Viewport::get_projection` is a plain accessor and has no row.
- The functions that only compute carry no `ensures` of their own, because a contract on them would be assumed at every use. Their rows name the lemmas that state their meaning instead:
  - the colour operators: `AddIsAbelian`, `MulDistributes`, `ScaleIsGreyProduct`, `DivUndoesMul` and `ScaleUndoesDivScalar`;
  - the viewport getters: `NewAccessors`;
  - `RayThrough`: `RayThroughReachesFar`;
  - `calculate_normal`: `New` and `NormalIsPerpendicular`;
  - `get_v`: `SetV`;
  - `doubled_area_of`: `SubAreas`;
  - the Möller–Trumbore solve: `SolveByTriples` and `SolveRecovers`;
  - `local_2d_coordinates`: `LocalCoordinatesInvertPointAt`;
  - `get_primitive` and `get_material`: `AddThenGet`.
- Local 2D coordinates (`Triangles.Local2dCoordinates`) are defined only for a non-degenerate triangle. The source divides by its zero area and gets NaN or infinity.
- Triangles.Apply: the point actions of `Rotation3`, `Isometry3`, `Similarity3`, `Transform3` and `Matrix4::transform_point` are an abstract function `f`. Only `Matrix3` and `Translation3` are written out.
- Triangles.SetV, Triangles.GetV, Scenes.GetPrimitive, Scenes.GetMaterial: an out-of-range index, which panics in the source, is excluded by `requires`.
- Scenes.TraceUntil, Scenes.Trace: the scene must be `WellFormed`, so a recursing scene casts at least one beam ray. With zero rays, the source divides the emission by zero.
- Scenes.ClosestHit: the source drops hits whose distance is NaN (scene.rs:143) before `min_by` compares them, so `partial_cmp(..).unwrap()` never panics. Over reals there is no NaN, and the filter is not modelled.
- Scenes.GetBeam: the rotation and the random radius and angle that build each offset are the oracle `offset`. Only the beam's length, its origins and its "direction plus offset" shape are modelled.
- `get_reflected_ray` (scene.rs:87-100) is the oracle `reflect`. `get_size` is the oracle `size`.
- The end-to-end scene tests with concrete geometry (scene.rs:189-265, 285-386, 440-523) depend on the library norm and normalization, which are parameters here.
