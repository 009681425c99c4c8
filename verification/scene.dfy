/**
  The scene: triangles paired with their materials, the closest-hit search, and
  the depth-bounded recursive trace that averages the light of a beam of
  jittered reflected rays and shades it with the material that was hit.

  Everything the renderer takes from libraries or from randomness is part of an
  `Environment`: normalization, the Euclidean norm, the mirror reflection at a
  hit, the primitive's size, and the random offset of each beam ray.
 */
module Scenes {
  import opened Geometry
  import opened Optional
  import opened Triangles
  import Colours

  type Colour = Colours.Colour

  /** A surface material: the light it emits and the fraction of incoming light it passes on. */
  datatype Material = Material(emission: Colour, diffuse: Colour)

  /** The derived `Default` material: black emission and black diffuse. */
  const DefaultMaterial: Material := Material(Colours.Black, Colours.Black)

  /** Where a ray hit, and the index of the primitive it hit. */
  datatype HitResult = HitResult(point: Point3, index: nat)

  /** The light found along a ray: `diffuse` is what `trace` reports, `emission` what is passed upwards. */
  datatype TraceResult = TraceResult(diffuse: Colour, emission: Colour)

  /** The derived `Default` trace result: both colours black. */
  const DefaultResult: TraceResult := TraceResult(Colours.Black, Colours.Black)

  // ---------------------------------------------------------------------------
  // TraceResult
  // ---------------------------------------------------------------------------

  /** `From<Material>`: both colours of the material, field for field. */
  function FromMaterial(m: Material): (r: TraceResult)
    ensures r.diffuse == m.diffuse && r.emission == m.emission
  {
    TraceResult(m.diffuse, m.emission)
  }

  /** A trace result read back as a material, the inverse of `FromMaterial`. */
  function ToMaterial(r: TraceResult): Material {
    Material(r.emission, r.diffuse)
  }

  /** `FromMaterial` loses nothing: it and `ToMaterial` are inverse to each other. */
  lemma FromMaterialRoundTrip(m: Material, r: TraceResult)
    ensures ToMaterial(FromMaterial(m)) == m
    ensures FromMaterial(ToMaterial(r)) == r
  {
  }

  /** `add_light`: adds the other result's emission; its own diffuse colour is kept. */
  function AddLight(self: TraceResult, other: TraceResult): (r: TraceResult)
    ensures r.diffuse == self.diffuse
    ensures r.emission == Colours.Add(self.emission, other.emission)
  {
    self.(emission := Colours.Add(self.emission, other.emission))
  }

  /** Only the other result's emission matters to `add_light`, never its diffuse colour. */
  lemma AddLightIgnoresOtherDiffuse(self: TraceResult, other: TraceResult, d: Colour)
    ensures AddLight(self, other) == AddLight(self, other.(diffuse := d))
  {
  }

  /**
    `apply_to`: the light leaving a surface of `material` lit by this result:
    the material's own emission plus its diffuse colour times the incoming
    emission. Both fields of the result carry that colour.
   */
  function ApplyTo(self: TraceResult, material: Material): (r: TraceResult)
    ensures r.diffuse == r.emission
    ensures r.emission == Colours.Add(material.emission, Colours.Mul(material.diffuse, self.emission))
  {
    var c := Colours.Add(material.emission, Colours.Mul(material.diffuse, self.emission));
    TraceResult(c, c)
  }

  /** `apply_to` reads only the incoming emission; a black diffuse material shows only its own emission. */
  lemma ApplyToReadsEmission(self: TraceResult, d: Colour, m: Material)
    ensures ApplyTo(self, m) == ApplyTo(self.(diffuse := d), m)
    ensures m.diffuse == Colours.Black ==> ApplyTo(self, m) == TraceResult(m.emission, m.emission)
  {
  }

  /** The trace-result examples of the scene tests. */
  lemma TraceResultExamples()
    ensures FromMaterial(Material(Colours.Colour(1.0, 1.0, 1.0), Colours.Black))
         == TraceResult(Colours.Black, Colours.Colour(1.0, 1.0, 1.0))
    ensures AddLight(TraceResult(Colours.Colour(1.0, 0.0, 0.0), Colours.Colour(1.0, 0.0, 0.25)),
                     TraceResult(Colours.Colour(0.0, 1.0, 0.0), Colours.Colour(0.0, 1.0, 0.35)))
         == TraceResult(Colours.Colour(1.0, 0.0, 0.0), Colours.Colour(1.0, 1.0, 0.6))
  {
  }

  /** The light of a sequence of results, summed from the right: the reference for the beam loop. */
  function SumEmission(rs: seq<TraceResult>): Colour {
    if |rs| == 0 then Colours.Black else Colours.Add(rs[0].emission, SumEmission(rs[1..]))
  }

  /** The beam loop of `trace_until`: `add_light` of every result in turn, starting from `acc`. */
  function AccumulateLight(acc: TraceResult, rs: seq<TraceResult>): TraceResult
    decreases |rs|
  {
    if |rs| == 0 then acc else AccumulateLight(AddLight(acc, rs[0]), rs[1..])
  }

  /** The beam loop keeps the diffuse colour and adds the total emission of the results. */
  lemma {:induction false} AccumulateLightSums(acc: TraceResult, rs: seq<TraceResult>)
    ensures AccumulateLight(acc, rs) == TraceResult(acc.diffuse, Colours.Add(acc.emission, SumEmission(rs)))
    decreases |rs|
  {
    if |rs| == 0 {
      Colours.AddIsAbelian(acc.emission, acc.emission, acc.emission);
    } else {
      AccumulateLightSums(AddLight(acc, rs[0]), rs[1..]);
      Colours.AddIsAbelian(acc.emission, rs[0].emission, SumEmission(rs[1..]));
    }
  }

  // ---------------------------------------------------------------------------
  // PrimitivesWithMaterials
  // ---------------------------------------------------------------------------

  /** Triangles and their materials in two parallel lists: the material of triangle `i` is material `i`. */
  datatype PrimitivesWithMaterials = PrimitivesWithMaterials(primitives: seq<Triangle>, materials: seq<Material>)

  predicate Synchronised(pm: PrimitivesWithMaterials) {
    |pm.primitives| == |pm.materials|
  }

  /** `PrimitivesWithMaterials::new`: both lists empty. */
  function NewPrimitives(): (pm: PrimitivesWithMaterials)
    ensures Synchronised(pm) && |pm.primitives| == 0
  {
    PrimitivesWithMaterials([], [])
  }

  /** `add`: appends the primitive and its material, keeping the two lists in step. */
  function AddPrimitive(pm: PrimitivesWithMaterials, p: Triangle, m: Material): (r: PrimitivesWithMaterials)
    ensures |r.primitives| == |pm.primitives| + 1 && |r.materials| == |pm.materials| + 1
    ensures r.primitives[..|pm.primitives|] == pm.primitives && r.primitives[|pm.primitives|] == p
    ensures r.materials[..|pm.materials|] == pm.materials && r.materials[|pm.materials|] == m
    ensures Synchronised(pm) ==> Synchronised(r)
  {
    PrimitivesWithMaterials(pm.primitives + [p], pm.materials + [m])
  }

  /** `get_primitive`; an index past the end panics in the source. */
  function GetPrimitive(pm: PrimitivesWithMaterials, i: nat): Triangle
    requires i < |pm.primitives|
  {
    pm.primitives[i]
  }

  /** `get_material`; an index past the end panics in the source. */
  function GetMaterial(pm: PrimitivesWithMaterials, i: nat): Material
    requires i < |pm.materials|
  {
    pm.materials[i]
  }

  /** After `add`, the new pair sits at the old length and every earlier pair is where it was. */
  lemma AddThenGet(pm: PrimitivesWithMaterials, p: Triangle, m: Material, j: nat)
    requires Synchronised(pm)
    requires j <= |pm.primitives|
    ensures var r := AddPrimitive(pm, p, m);
      && (j == |pm.primitives| ==> GetPrimitive(r, j) == p && GetMaterial(r, j) == m)
      && (j < |pm.primitives| ==> GetPrimitive(r, j) == GetPrimitive(pm, j) && GetMaterial(r, j) == GetMaterial(pm, j))
  {
  }

  // ---------------------------------------------------------------------------
  // Closest hit
  // ---------------------------------------------------------------------------

  /** The distance from the ray's origin to a point. */
  function Distance(norm: Vec3 -> real, ray: Ray, p: Point3): real {
    norm(Sub(p, ray.origin))
  }

  /** Primitive `i` is hit by the ray. */
  predicate Hits(pm: PrimitivesWithMaterials, ray: Ray, i: nat)
    requires i < |pm.primitives|
  {
    Intersects(pm.primitives[i], ray).Some?
  }

  /** The distance to the point where primitive `i` is hit. */
  function HitDistance(norm: Vec3 -> real, pm: PrimitivesWithMaterials, ray: Ray, i: nat): real
    requires i < |pm.primitives| && Hits(pm, ray, i)
  {
    Distance(norm, ray, Intersects(pm.primitives[i], ray).value)
  }

  /**
    The specification of `closest_hit`: `h` names a hit primitive and its hit
    point, no hit primitive is nearer, and every hit primitive before it is
    strictly farther (among equally near hits the first one wins).
   */
  predicate IsClosest(norm: Vec3 -> real, pm: PrimitivesWithMaterials, ray: Ray, n: nat, h: HitResult)
    requires n <= |pm.primitives|
  {
    && h.index < n
    && Intersects(pm.primitives[h.index], ray) == Some(h.point)
    && (forall i :: 0 <= i < n && Hits(pm, ray, i) ==> Distance(norm, ray, h.point) <= HitDistance(norm, pm, ray, i))
    && (forall i :: 0 <= i < h.index && Hits(pm, ray, i) ==> Distance(norm, ray, h.point) < HitDistance(norm, pm, ray, i))
  }

  /**
    The minimum scan of `closest_hit` over the first `n` primitives: a hit
    replaces the best so far only when it is strictly nearer.
   */
  function ClosestAmong(norm: Vec3 -> real, pm: PrimitivesWithMaterials, ray: Ray, n: nat): (r: Option<HitResult>)
    requires n <= |pm.primitives|
    ensures r.None? <==> forall i :: 0 <= i < n ==> !Hits(pm, ray, i)
    ensures r.Some? ==> IsClosest(norm, pm, ray, n, r.value)
  {
    if n == 0 then None
    else
      var best := ClosestAmong(norm, pm, ray, n - 1);
      match Intersects(pm.primitives[n - 1], ray)
      case None =>
        if best.Some? then MissKeepsClosest(norm, pm, ray, n, best.value); best else best
      case Some(p) =>
        if best.None? || Distance(norm, ray, p) < Distance(norm, ray, best.value.point) then
          NearerHitIsClosest(norm, pm, ray, n, best, p);
          Some(HitResult(p, n - 1))
        else
          FartherHitKeepsClosest(norm, pm, ray, n, best.value, p);
          best
  }

  /** A primitive that is not hit leaves the closest hit of the primitives before it closest. */
  lemma MissKeepsClosest(norm: Vec3 -> real, pm: PrimitivesWithMaterials, ray: Ray, n: nat, h: HitResult)
    requires 0 < n <= |pm.primitives|
    requires Intersects(pm.primitives[n - 1], ray).None?
    requires IsClosest(norm, pm, ray, n - 1, h)
    ensures IsClosest(norm, pm, ray, n, h)
  {
  }

  /** A hit no nearer than the best so far leaves the best so far closest: ties keep the earlier index. */
  lemma FartherHitKeepsClosest(norm: Vec3 -> real, pm: PrimitivesWithMaterials, ray: Ray, n: nat, h: HitResult,
                               p: Point3)
    requires 0 < n <= |pm.primitives|
    requires Intersects(pm.primitives[n - 1], ray) == Some(p)
    requires IsClosest(norm, pm, ray, n - 1, h)
    requires !(Distance(norm, ray, p) < Distance(norm, ray, h.point))
    ensures IsClosest(norm, pm, ray, n, h)
  {
    assert HitDistance(norm, pm, ray, n - 1) == Distance(norm, ray, p);
  }

  /** A hit strictly nearer than every earlier hit is the closest of the first `n`. */
  lemma NearerHitIsClosest(norm: Vec3 -> real, pm: PrimitivesWithMaterials, ray: Ray, n: nat, best: Option<HitResult>,
                           p: Point3)
    requires 0 < n <= |pm.primitives|
    requires Intersects(pm.primitives[n - 1], ray) == Some(p)
    requires best.None? ==> forall i :: 0 <= i < n - 1 ==> !Hits(pm, ray, i)
    requires best.Some? ==> IsClosest(norm, pm, ray, n - 1, best.value)
                            && Distance(norm, ray, p) < Distance(norm, ray, best.value.point)
    ensures Hits(pm, ray, n - 1) && IsClosest(norm, pm, ray, n, HitResult(p, n - 1))
  {
    assert HitDistance(norm, pm, ray, n - 1) == Distance(norm, ray, p);
  }

  /** `closest_hit`: the nearest hit over all primitives, or `None` when no primitive is hit. */
  function ClosestHit(norm: Vec3 -> real, pm: PrimitivesWithMaterials, ray: Ray): (r: Option<HitResult>)
    ensures r.None? <==> forall i :: 0 <= i < |pm.primitives| ==> !Hits(pm, ray, i)
    ensures r.Some? ==> IsClosest(norm, pm, ray, |pm.primitives|, r.value)
  {
    ClosestAmong(norm, pm, ray, |pm.primitives|)
  }

  /** At most one hit result meets the specification, so the specification determines `closest_hit`. */
  lemma ClosestIsUnique(norm: Vec3 -> real, pm: PrimitivesWithMaterials, ray: Ray, n: nat, h: HitResult, h': HitResult)
    requires n <= |pm.primitives|
    requires IsClosest(norm, pm, ray, n, h) && IsClosest(norm, pm, ray, n, h')
    ensures h == h'
  {
    assert Hits(pm, ray, h.index) && Hits(pm, ray, h'.index);
  }

  /** `closest_hit` returns a hit exactly when it meets the specification. */
  lemma ClosestHitCharacterised(norm: Vec3 -> real, pm: PrimitivesWithMaterials, ray: Ray, h: HitResult)
    ensures ClosestHit(norm, pm, ray) == Some(h) <==> IsClosest(norm, pm, ray, |pm.primitives|, h)
  {
    var r := ClosestHit(norm, pm, ray);
    if IsClosest(norm, pm, ray, |pm.primitives|, h) {
      assert Hits(pm, ray, h.index);
      ClosestIsUnique(norm, pm, ray, |pm.primitives|, r.value, h);
    }
  }

  /** An empty collection has no closest hit. */
  lemma ClosestHitOfNothing(norm: Vec3 -> real, ray: Ray)
    ensures ClosestHit(norm, NewPrimitives(), ray) == None
  {
  }

  // ---------------------------------------------------------------------------
  // Scene
  // ---------------------------------------------------------------------------

  datatype Scene = Scene(defaultMaterial: Material, recursionDepth: nat, beamRaysCount: nat,
                         triangles: PrimitivesWithMaterials)

  /**
    The lists are in step, and a scene that recurses casts at least one ray per
    beam (the beam's light is divided by the number of its rays).
   */
  predicate WellFormed(sc: Scene) {
    Synchronised(sc.triangles) && (sc.recursionDepth > 0 ==> sc.beamRaysCount > 0)
  }

  /** `Scene::new`: no triangles yet. */
  function NewScene(defaultMaterial: Material, recursionDepth: nat, beamRaysCount: nat): (sc: Scene)
    ensures sc.defaultMaterial == defaultMaterial
    ensures sc.recursionDepth == recursionDepth && sc.beamRaysCount == beamRaysCount
    ensures |sc.triangles.primitives| == 0
    ensures (recursionDepth > 0 ==> beamRaysCount > 0) ==> WellFormed(sc)
  {
    Scene(defaultMaterial, recursionDepth, beamRaysCount, NewPrimitives())
  }

  /** `add_triangle`: adds the pair to the scene's triangles and changes nothing else. */
  function AddTriangle(sc: Scene, tri: Triangle, m: Material): (r: Scene)
    ensures r.triangles == AddPrimitive(sc.triangles, tri, m)
    ensures r.defaultMaterial == sc.defaultMaterial
    ensures r.recursionDepth == sc.recursionDepth && r.beamRaysCount == sc.beamRaysCount
    ensures WellFormed(sc) ==> WellFormed(r)
  {
    sc.(triangles := AddPrimitive(sc.triangles, tri, m))
  }

  /**
    What the trace takes from outside the model: `unit` normalizes a vector,
    `norm` measures one, `reflect` is the reflected ray for an incoming ray, a
    surface normal and a hit point, `size` is the primitive's size, and
    `offset(path, ray, size, k)` is the random offset of ray `k` of the beam cast
    at the call reached along `path` (so every beam draws its own offsets).
   */
  datatype Environment = Environment(
    unit: Vec3 -> Vec3,
    norm: Vec3 -> real,
    reflect: (Ray, Vec3, Point3) -> Ray,
    size: Triangle -> real,
    offset: (seq<nat>, Ray, real, nat) -> Vec3)

  /**
    `get_beam`: `beamRaysCount` rays that all start at the reflected ray's
    origin, each in the reflected direction shifted by its random offset.
   */
  function GetBeam(env: Environment, sc: Scene, path: seq<nat>, ray: Ray, size: real): (beam: seq<Ray>)
    ensures |beam| == sc.beamRaysCount
    ensures forall k :: 0 <= k < |beam| ==>
      beam[k].origin == ray.origin && beam[k].direction == env.unit(Add(ray.direction, env.offset(path, ray, size, k)))
  {
    seq(sc.beamRaysCount, (k: int) requires 0 <= k => BeamRay(env, path, ray, size, k))
  }

  /** Ray `k` of the beam: `Ray::new` from the reflected origin, in the reflected direction plus offset `k`. */
  function BeamRay(env: Environment, path: seq<nat>, ray: Ray, size: real, k: nat): Ray {
    NewRay(env.unit, ray.origin, Add(ray.direction, env.offset(path, ray, size, k)))
  }

  /** The beam cast from a hit: reflected about the hit triangle's normal, spread by the triangle's size. */
  function BeamAt(env: Environment, sc: Scene, ray: Ray, hit: HitResult, path: seq<nat>): (beam: seq<Ray>)
    requires hit.index < |sc.triangles.primitives|
    ensures |beam| == sc.beamRaysCount
    ensures forall k :: 0 <= k < |beam| ==>
      beam[k].origin == env.reflect(ray, GetPrimitive(sc.triangles, hit.index).normal, hit.point).origin
  {
    var tri := GetPrimitive(sc.triangles, hit.index);
    GetBeam(env, sc, path, env.reflect(ray, tri.normal, hit.point), env.size(tri))
  }

  /** The number of steps left before the recursion stops. */
  function StepsLeft(sc: Scene, step: nat): nat {
    if step < sc.recursionDepth then sc.recursionDepth - step else 0
  }

  /**
    `trace_until`: a miss gives the default material as a trace result. A hit
    below the recursion depth averages the light of the beam traced one step
    deeper; a hit at the depth uses the default material instead. Either way
    the material that was hit is then applied.
   */
  function TraceUntil(env: Environment, sc: Scene, ray: Ray, step: nat, path: seq<nat>): (r: TraceResult)
    requires WellFormed(sc)
    ensures ClosestHit(env.norm, sc.triangles, ray).None? ==> r == FromMaterial(sc.defaultMaterial)
    ensures ClosestHit(env.norm, sc.triangles, ray).Some? ==> r.diffuse == r.emission
    decreases StepsLeft(sc, step), 2
  {
    match ClosestHit(env.norm, sc.triangles, ray)
    case None => FromMaterial(sc.defaultMaterial)
    case Some(hit) =>
      var incoming := if step < sc.recursionDepth then Incoming(env, sc, ray, hit, step, path)
                      else FromMaterial(sc.defaultMaterial);
      ApplyTo(incoming, GetMaterial(sc.triangles, hit.index))
  }

  /** The beam's light: `add_light` of every sub-trace onto a default result, then the emission divided by the ray count. */
  function Incoming(env: Environment, sc: Scene, ray: Ray, hit: HitResult, step: nat, path: seq<nat>)
    : (r: TraceResult)
    requires WellFormed(sc) && step < sc.recursionDepth && hit.index < |sc.triangles.primitives|
    ensures r.diffuse == Colours.Black
    ensures r.emission
         == Colours.DivScalar(SumEmission(SubTraces(env, sc, ray, hit, step, path)), sc.beamRaysCount as real)
    decreases StepsLeft(sc, step), 1
  {
    var subs := SubTraces(env, sc, ray, hit, step, path);
    var lit := AccumulateLight(DefaultResult, subs);
    AccumulateLightSums(DefaultResult, subs);
    Colours.AddIsAbelian(Colours.Black, SumEmission(subs), Colours.Black);
    lit.(emission := Colours.DivScalar(lit.emission, sc.beamRaysCount as real))
  }

  /** The results of tracing every beam ray one step deeper, ray `k` along the path extended by `k`. */
  function SubTraces(env: Environment, sc: Scene, ray: Ray, hit: HitResult, step: nat, path: seq<nat>)
    : (rs: seq<TraceResult>)
    requires WellFormed(sc) && step < sc.recursionDepth && hit.index < |sc.triangles.primitives|
    ensures |rs| == sc.beamRaysCount
    ensures forall k :: 0 <= k < |rs| ==>
      rs[k] == TraceUntil(env, sc, BeamAt(env, sc, ray, hit, path)[k], step + 1, path + [k])
    decreases StepsLeft(sc, step), 0
  {
    var beam := BeamAt(env, sc, ray, hit, path);
    seq(|beam|, k requires 0 <= k < |beam| => TraceUntil(env, sc, beam[k], step + 1, path + [k]))
  }

  /** `trace`: the diffuse colour of the trace started at step 0. */
  function Trace(env: Environment, sc: Scene, ray: Ray): (c: Colour)
    requires WellFormed(sc)
    ensures ClosestHit(env.norm, sc.triangles, ray).None? ==> c == sc.defaultMaterial.diffuse
    ensures ClosestHit(env.norm, sc.triangles, ray).Some? ==> c == TraceUntil(env, sc, ray, 0, []).emission
  {
    TraceUntil(env, sc, ray, 0, []).diffuse
  }

  // ---------------------------------------------------------------------------
  // Properties of the trace
  // ---------------------------------------------------------------------------

  /** A ray that hits nothing, at any step, gives the default material. */
  lemma TraceMiss(env: Environment, sc: Scene, ray: Ray, step: nat, path: seq<nat>)
    requires WellFormed(sc)
    requires forall i :: 0 <= i < |sc.triangles.primitives| ==> !Hits(sc.triangles, ray, i)
    ensures TraceUntil(env, sc, ray, step, path) == FromMaterial(sc.defaultMaterial)
  {
  }

  /** A hit at or beyond the depth shades the hit material with the default material's emission. */
  lemma TraceAtDepth(env: Environment, sc: Scene, ray: Ray, step: nat, path: seq<nat>, h: HitResult)
    requires WellFormed(sc) && step >= sc.recursionDepth
    requires IsClosest(env.norm, sc.triangles, ray, |sc.triangles.primitives|, h)
    ensures var m := GetMaterial(sc.triangles, h.index);
      var c := Colours.Add(m.emission, Colours.Mul(m.diffuse, sc.defaultMaterial.emission));
      TraceUntil(env, sc, ray, step, path) == TraceResult(c, c)
  {
    ClosestHitCharacterised(env.norm, sc.triangles, ray, h);
  }

  /**
    A hit below the depth shades the hit material with the average emission of
    the beam's sub-traces: their summed emission divided by the number of rays.
   */
  lemma TraceBelowDepth(env: Environment, sc: Scene, ray: Ray, step: nat, path: seq<nat>, h: HitResult)
    requires WellFormed(sc) && step < sc.recursionDepth
    requires IsClosest(env.norm, sc.triangles, ray, |sc.triangles.primitives|, h)
    ensures var m := GetMaterial(sc.triangles, h.index);
      var rs := SubTraces(env, sc, ray, h, step, path);
      var c := Colours.Add(m.emission, Colours.Mul(m.diffuse, Colours.DivScalar(SumEmission(rs), sc.beamRaysCount as real)));
      && |rs| == sc.beamRaysCount
      && TraceUntil(env, sc, ray, step, path) == TraceResult(c, c)
  {
    ClosestHitCharacterised(env.norm, sc.triangles, ray, h);
  }

  /** A scene without recursion shades the first hit with the default emission and ignores beams altogether. */
  lemma NoRecursionTrace(env: Environment, env': Environment, sc: Scene, ray: Ray)
    requires WellFormed(sc) && sc.recursionDepth == 0
    requires env'.norm == env.norm
    ensures Trace(env, sc, ray) == Trace(env', sc, ray)
    ensures match ClosestHit(env.norm, sc.triangles, ray)
      case None => Trace(env, sc, ray) == sc.defaultMaterial.diffuse
      case Some(h) =>
        var m := GetMaterial(sc.triangles, h.index);
        Trace(env, sc, ray) == Colours.Add(m.emission, Colours.Mul(m.diffuse, sc.defaultMaterial.emission))
  {
  }

  /** An empty scene shows the default material's diffuse colour along every ray. */
  lemma EmptySceneTrace(env: Environment, dm: Material, depth: nat, beams: nat, ray: Ray)
    requires depth > 0 ==> beams > 0
    ensures Trace(env, NewScene(dm, depth, beams), ray) == dm.diffuse
  {
  }

  // ---------------------------------------------------------------------------
  // Shape of the recursion
  // ---------------------------------------------------------------------------

  /** A trace result together with the deepest step and the number of `trace_until` calls that produced it. */
  datatype Counted = Counted(result: TraceResult, deepest: nat, calls: nat)

  /**
    `trace_until` instrumented: the same branches and the same beam, also
    reporting the deepest step reached and how many calls were made, this one
    included.
   */
  function TraceCounted(env: Environment, sc: Scene, ray: Ray, step: nat, path: seq<nat>): (c: Counted)
    requires WellFormed(sc)
    ensures c.deepest >= step && c.calls >= 1
    ensures ClosestHit(env.norm, sc.triangles, ray).Some? && step < sc.recursionDepth ==> c.deepest > step
    decreases StepsLeft(sc, step), 1
  {
    match ClosestHit(env.norm, sc.triangles, ray)
    case None => Counted(FromMaterial(sc.defaultMaterial), step, 1)
    case Some(hit) =>
      var m := GetMaterial(sc.triangles, hit.index);
      if step < sc.recursionDepth then
        var subs := SubTracesCounted(env, sc, ray, hit, step, path);
        var lit := AccumulateLight(DefaultResult, Results(subs));
        var incoming := lit.(emission := Colours.DivScalar(lit.emission, sc.beamRaysCount as real));
        Counted(ApplyTo(incoming, m), Deepest(subs, step + 1), 1 + Calls(subs))
      else
        Counted(ApplyTo(FromMaterial(sc.defaultMaterial), m), step, 1)
  }

  /** The instrumented traces of the beam rays, ray `k` at the next step along the path extended by `k`. */
  function SubTracesCounted(env: Environment, sc: Scene, ray: Ray, hit: HitResult, step: nat, path: seq<nat>)
    : (cs: seq<Counted>)
    requires WellFormed(sc) && step < sc.recursionDepth && hit.index < |sc.triangles.primitives|
    ensures |cs| == sc.beamRaysCount
    decreases StepsLeft(sc, step), 0
  {
    var beam := BeamAt(env, sc, ray, hit, path);
    seq(|beam|, k requires 0 <= k < |beam| => TraceCounted(env, sc, beam[k], step + 1, path + [k]))
  }

  function Results(cs: seq<Counted>): (rs: seq<TraceResult>)
    ensures |rs| == |cs| && forall i :: 0 <= i < |cs| ==> rs[i] == cs[i].result
  {
    seq(|cs|, i requires 0 <= i < |cs| => cs[i].result)
  }

  /** The deepest step among `cs`, and at least `lo`. */
  function Deepest(cs: seq<Counted>, lo: nat): (d: nat)
    ensures d >= lo && forall i :: 0 <= i < |cs| ==> cs[i].deepest <= d
    ensures d == lo || exists i :: 0 <= i < |cs| && cs[i].deepest == d
  {
    if |cs| == 0 then lo
    else
      var rest := Deepest(cs[1..], lo);
      if cs[0].deepest >= rest then cs[0].deepest else rest
  }

  /** The total number of calls in `cs`. */
  function Calls(cs: seq<Counted>): nat {
    if |cs| == 0 then 0 else cs[0].calls + Calls(cs[1..])
  }

  /** The instrumented trace computes exactly what `trace_until` computes. */
  lemma {:induction false} TraceCountedAgrees(env: Environment, sc: Scene, ray: Ray, step: nat, path: seq<nat>)
    requires WellFormed(sc)
    ensures TraceCounted(env, sc, ray, step, path).result == TraceUntil(env, sc, ray, step, path)
    decreases StepsLeft(sc, step), 1
  {
    match ClosestHit(env.norm, sc.triangles, ray)
    case None =>
    case Some(hit) =>
      if step < sc.recursionDepth {
        var subs := SubTracesCounted(env, sc, ray, hit, step, path);
        var rs := SubTraces(env, sc, ray, hit, step, path);
        forall k | 0 <= k < |subs|
          ensures subs[k].result == rs[k]
        {
          BeamRayAgrees(env, sc, ray, hit, step, path, k);
        }
        assert Results(subs) == rs;
      }
  }

  /** Beam ray `k` gets the same trace result from the instrumented trace as from `trace_until`. */
  lemma {:induction false} BeamRayAgrees(env: Environment, sc: Scene, ray: Ray, hit: HitResult, step: nat,
                                         path: seq<nat>, k: nat)
    requires WellFormed(sc) && step < sc.recursionDepth && hit.index < |sc.triangles.primitives|
    requires k < sc.beamRaysCount
    ensures SubTracesCounted(env, sc, ray, hit, step, path)[k].result == SubTraces(env, sc, ray, hit, step, path)[k]
    decreases StepsLeft(sc, step), 0
  {
    TraceCountedAgrees(env, sc, BeamAt(env, sc, ray, hit, path)[k], step + 1, path + [k]);
  }

  /** Started no deeper than the recursion depth, no `trace_until` call goes beyond it. */
  lemma {:induction false} TraceCountedDepth(env: Environment, sc: Scene, ray: Ray, step: nat, path: seq<nat>)
    requires WellFormed(sc) && step <= sc.recursionDepth
    ensures TraceCounted(env, sc, ray, step, path).deepest <= sc.recursionDepth
    decreases StepsLeft(sc, step), 1
  {
    match ClosestHit(env.norm, sc.triangles, ray)
    case None =>
    case Some(hit) =>
      if step < sc.recursionDepth {
        var subs := SubTracesCounted(env, sc, ray, hit, step, path);
        forall k | 0 <= k < |subs|
          ensures subs[k].deepest <= sc.recursionDepth
        {
          BeamRayDepth(env, sc, ray, hit, step, path, k);
        }
      }
  }

  /** Beam ray `k`, traced one step deeper, reaches no step beyond the recursion depth. */
  lemma {:induction false} BeamRayDepth(env: Environment, sc: Scene, ray: Ray, hit: HitResult, step: nat,
                                        path: seq<nat>, k: nat)
    requires WellFormed(sc) && step < sc.recursionDepth && hit.index < |sc.triangles.primitives|
    requires k < sc.beamRaysCount
    ensures SubTracesCounted(env, sc, ray, hit, step, path)[k].deepest <= sc.recursionDepth
    decreases StepsLeft(sc, step), 0
  {
    var beam := BeamAt(env, sc, ray, hit, path);
    assert step + 1 <= sc.recursionDepth;
    TraceCountedDepth(env, sc, beam[k], step + 1, path + [k]);
  }

  /** `1 + b + b^2 + ... + b^n`: the size of a full tree of fan-out `b` and height `n`. */
  function FullTree(b: nat, n: nat): (size: nat)
    ensures size >= 1
  {
    if n == 0 then 1 else 1 + b * FullTree(b, n - 1)
  }

  /** The calls never exceed a full tree of fan-out `beamRaysCount` over the steps left. */
  lemma {:induction false} TraceCountedCalls(env: Environment, sc: Scene, ray: Ray, step: nat, path: seq<nat>)
    requires WellFormed(sc)
    ensures TraceCounted(env, sc, ray, step, path).calls <= FullTree(sc.beamRaysCount, StepsLeft(sc, step))
    decreases StepsLeft(sc, step), 2
  {
    match ClosestHit(env.norm, sc.triangles, ray)
    case None =>
    case Some(hit) =>
      if step < sc.recursionDepth {
        var below := Calls(SubTracesCounted(env, sc, ray, hit, step, path));
        SubTracesCountedCalls(env, sc, ray, hit, step, path);
        assert StepsLeft(sc, step + 1) == StepsLeft(sc, step) - 1;
        FullTreeGrows(sc.beamRaysCount, StepsLeft(sc, step), below);
      }
  }

  /** The beam traced one step deeper makes at most `beamRaysCount` full trees of calls over one step fewer. */
  lemma {:induction false} SubTracesCountedCalls(env: Environment, sc: Scene, ray: Ray, hit: HitResult, step: nat,
                                                 path: seq<nat>)
    requires WellFormed(sc) && step < sc.recursionDepth && hit.index < |sc.triangles.primitives|
    ensures Calls(SubTracesCounted(env, sc, ray, hit, step, path))
      <= sc.beamRaysCount * FullTree(sc.beamRaysCount, StepsLeft(sc, step + 1))
    decreases StepsLeft(sc, step), 1
  {
    var subs := SubTracesCounted(env, sc, ray, hit, step, path);
    var t := FullTree(sc.beamRaysCount, StepsLeft(sc, step + 1));
    forall k | 0 <= k < |subs|
      ensures subs[k].calls <= t
    {
      BeamRayCalls(env, sc, ray, hit, step, path, k);
    }
    CallsBounded(subs, t);
  }

  /** Beam ray `k`, traced one step deeper, makes at most a full tree of calls over one step fewer. */
  lemma {:induction false} BeamRayCalls(env: Environment, sc: Scene, ray: Ray, hit: HitResult, step: nat,
                                        path: seq<nat>, k: nat)
    requires WellFormed(sc) && step < sc.recursionDepth && hit.index < |sc.triangles.primitives|
    requires k < sc.beamRaysCount
    ensures SubTracesCounted(env, sc, ray, hit, step, path)[k].calls
      <= FullTree(sc.beamRaysCount, StepsLeft(sc, step + 1))
    decreases StepsLeft(sc, step), 0
  {
    TraceCountedCalls(env, sc, BeamAt(env, sc, ray, hit, path)[k], step + 1, path + [k]);
  }

  /** A root over subtrees whose calls fit `b` full trees of height `n - 1` fits a full tree of height `n`. */
  lemma FullTreeGrows(b: nat, n: nat, below: nat)
    requires n > 0 && below <= b * FullTree(b, n - 1)
    ensures 1 + below <= FullTree(b, n)
  {
  }

  /** Calls of a sequence each making at most `t` calls total at most `|cs| * t`. */
  lemma {:induction false} CallsBounded(cs: seq<Counted>, t: nat)
    requires forall i :: 0 <= i < |cs| ==> cs[i].calls <= t
    ensures Calls(cs) <= |cs| * t
  {
    if |cs| > 0 {
      CallsBounded(cs[1..], t);
      assert (|cs| - 1) * t + t == |cs| * t;
    }
  }
}
