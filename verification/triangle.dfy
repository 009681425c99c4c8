/**
  The triangle primitive: three vertices and a cached unit normal, the
  Möller–Trumbore ray/triangle test, local 2D (barycentric) coordinates and
  per-vertex transform application.

  `unit` stands for the library's `Unit::new_normalize` and `norm` for the
  Euclidean norm; both need a square root and are passed in.
 */
module Triangles {
  import opened Geometry
  import opened Optional

  /** `Scalar::EPSILON` for `f32`: exactly 2^-23. */
  const Epsilon: real := 1.0 / 8388608.0

  type Vertices = s: seq<Point3> | |s| == 3 witness [Zero, Zero, Zero]

  /** `normal` is a cache: `Valid` says it agrees with the vertices. */
  datatype Triangle = Triangle(vertices: Vertices, normal: Vec3)

  /** The edges leaving vertex 0, towards vertex 1 and towards vertex 2. */
  function Edge1(vs: Vertices): Vec3 {
    Sub(vs[1], vs[0])
  }

  function Edge2(vs: Vertices): Vec3 {
    Sub(vs[2], vs[0])
  }

  /** `calculate_normal`: the normalized cross product of the two edges. */
  function CalculateNormal(unit: Vec3 -> Vec3, vs: Vertices): Vec3 {
    unit(Cross(Edge1(vs), Edge2(vs)))
  }

  /**
    When `unit` rescales its argument (as normalization does), the cached normal is
    perpendicular to both edges, so it is normal to the triangle's plane.
   */
  lemma NormalIsPerpendicular(unit: Vec3 -> Vec3, k: Vec3 -> real, vs: Vertices)
    requires forall v :: unit(v) == Scale(k(v), v)
    ensures Dot(CalculateNormal(unit, vs), Edge1(vs)) == 0.0
    ensures Dot(CalculateNormal(unit, vs), Edge2(vs)) == 0.0
  {
    var e1, e2 := Edge1(vs), Edge2(vs);
    var c := Cross(e1, e2);
    assert CalculateNormal(unit, vs) == Scale(k(c), c);
    TripleIsDotCross(e1, e1, e2);
    TripleIsDotCross(e2, e1, e2);
    TripleRepeats(e1, e2);
    TripleRepeats(e2, e1);
    DotOfScaled(k(c), c, e1);
    DotOfScaled(k(c), c, e2);
  }

  /** A scaled vector's dot product with `w`, as a multiple of the unscaled one's, read from `w`'s side. */
  lemma DotOfScaled(s: real, v: Vec3, w: Vec3)
    ensures Dot(Scale(s, v), w) == s * Dot(w, v)
  {
  }

  /** The cached-normal invariant. */
  predicate Valid(unit: Vec3 -> Vec3, t: Triangle) {
    t.normal == CalculateNormal(unit, t.vertices)
  }

  /** `Triangle::new`: stores the vertices as given and computes the normal from them. */
  function New(unit: Vec3 -> Vec3, vs: Vertices): (t: Triangle)
    ensures t.vertices == vs
    ensures Valid(unit, t)
  {
    Triangle(vs, CalculateNormal(unit, vs))
  }

  /** `get_v`; an index of 3 or more panics in the source. */
  function GetV(t: Triangle, i: nat): Point3
    requires i < 3
  {
    t.vertices[i]
  }

  /** `set_v`: replaces vertex `i` and recomputes the normal. */
  function SetV(unit: Vec3 -> Vec3, t: Triangle, i: nat, p: Point3): (r: Triangle)
    requires i < 3
    ensures GetV(r, i) == p
    ensures forall j :: 0 <= j < 3 && j != i ==> GetV(r, j) == GetV(t, j)
    ensures Valid(unit, r)
  {
    var vs: Vertices := t.vertices[i := p];
    Triangle(vs, CalculateNormal(unit, vs))
  }

  /** `doubled_area_of`: twice the area of the triangle `vs`, as the norm of the edges' cross product. */
  function DoubledAreaOf(norm: Vec3 -> real, vs: Vertices): real {
    norm(Cross(Edge1(vs), Edge2(vs)))
  }

  // ---------------------------------------------------------------------------
  // Möller–Trumbore
  // ---------------------------------------------------------------------------

  /** The point `v0 + a (v1 - v0) + b (v2 - v0)` of the triangle's plane. */
  function PointAt(t: Triangle, a: real, b: real): Point3 {
    Add(t.vertices[0], Add(Scale(a, Edge1(t.vertices)), Scale(b, Edge2(t.vertices))))
  }

  /** The determinant `e1 . (direction x e2)`; it is zero exactly when the ray is parallel to the plane. */
  function Determinant(t: Triangle, ray: Ray): real {
    Dot(Edge1(t.vertices), Cross(ray.direction, Edge2(t.vertices)))
  }

  /** Barycentric parameters `u`, `v` of the plane hit and the ray parameter `t`. */
  datatype Solution = Solution(u: real, v: real, t: real)

  /** The three parameters as the source computes them, each scaled by `1 / det`. */
  function Solve(tri: Triangle, ray: Ray): Solution
    requires Determinant(tri, ray) != 0.0
  {
    var e1 := Edge1(tri.vertices);
    var e2 := Edge2(tri.vertices);
    var pvec := Cross(ray.direction, e2);
    var invDet := 1.0 / Determinant(tri, ray);
    var tvec := Sub(ray.origin, tri.vertices[0]);
    var qvec := Cross(tvec, e1);
    Solution(Dot(tvec, pvec) * invDet, Dot(ray.direction, qvec) * invDet, Dot(e2, qvec) * invDet)
  }

  /** The source's in-triangle test: none of `u < 0`, `u > 1`, `v < 0`, `u + v > 1`. */
  predicate InsideTriangle(s: Solution) {
    !(s.u < 0.0 || s.u > 1.0 || s.v < 0.0 || s.u + s.v > 1.0)
  }

  /** `intersects`: the Möller–Trumbore test with its three reject conditions. */
  function Intersects(tri: Triangle, ray: Ray): (r: Option<Point3>)
    ensures Abs(Determinant(tri, ray)) <= Epsilon ==> r.None?
    ensures Abs(Determinant(tri, ray)) > Epsilon && !InsideTriangle(Solve(tri, ray)) ==> r.None?
    ensures Abs(Determinant(tri, ray)) > Epsilon && Solve(tri, ray).t < 0.0 ==> r.None?
    ensures r.Some? ==> Abs(Determinant(tri, ray)) > Epsilon && InsideTriangle(Solve(tri, ray))
                        && Solve(tri, ray).t >= 0.0 && r.value == At(ray, Solve(tri, ray).t)
  {
    var det := Determinant(tri, ray);
    if Abs(det) <= Epsilon then None
    else
      var s := Solve(tri, ray);
      if !InsideTriangle(s) then None
      else if s.t < 0.0 then None
      else Some(At(ray, s.t))
  }

  /**
    Soundness over exact reals: a reported hit lies on the ray at a non-negative
    parameter and inside the triangle, at the barycentric parameters the test computed.
   */
  lemma IntersectsSound(tri: Triangle, ray: Ray)
    requires Intersects(tri, ray).Some?
    ensures var s := Solve(tri, ray);
      && s.t >= 0.0 && s.u >= 0.0 && s.v >= 0.0 && s.u + s.v <= 1.0
      && Intersects(tri, ray).value == At(ray, s.t)
      && Intersects(tri, ray).value == PointAt(tri, s.u, s.v)
  {
    var s := Solve(tri, ray);
    var e1, e2, d := Edge1(tri.vertices), Edge2(tri.vertices), ray.direction;
    var tvec := Sub(ray.origin, tri.vertices[0]);
    SolveByTriples(tri, ray);
    CramerTriple(e1, d, e2, tvec);
    assert tvec == Sub(Add(Scale(s.u, e1), Scale(s.v, e2)), Scale(s.t, d));
    assert At(ray, s.t) == PointAt(tri, s.u, s.v);
  }

  /**
    Completeness over exact reals: when the ray is not parallel to the plane and
    meets the triangle at a non-negative parameter `s`, `intersects` reports that point.
   */
  lemma IntersectsComplete(tri: Triangle, ray: Ray, s: real, a: real, b: real)
    requires Abs(Determinant(tri, ray)) > Epsilon
    requires s >= 0.0 && a >= 0.0 && b >= 0.0 && a + b <= 1.0
    requires At(ray, s) == PointAt(tri, a, b)
    ensures Intersects(tri, ray) == Some(At(ray, s))
  {
    OffsetIsCombination(tri, ray, s, a, b);
    SolveRecovers(tri, ray, s, a, b);
  }

  /** A common point of ray and plane puts the ray's offset from `v0` at `a e1 + b e2 - s d`. */
  lemma OffsetIsCombination(tri: Triangle, ray: Ray, s: real, a: real, b: real)
    requires At(ray, s) == PointAt(tri, a, b)
    ensures Sub(ray.origin, tri.vertices[0])
         == Add(Add(Scale(a, Edge1(tri.vertices)), Scale(b, Edge2(tri.vertices))), Scale(-s, ray.direction))
  {
    var e1, e2, d := Edge1(tri.vertices), Edge2(tri.vertices), ray.direction;
    var o, v0 := ray.origin, tri.vertices[0];
    assert o.x + s * d.x == v0.x + (a * e1.x + b * e2.x) by {
      assert At(ray, s).x == PointAt(tri, a, b).x;
    }
    assert o.y + s * d.y == v0.y + (a * e1.y + b * e2.y) by {
      assert At(ray, s).y == PointAt(tri, a, b).y;
    }
    assert o.z + s * d.z == v0.z + (a * e1.z + b * e2.z) by {
      assert At(ray, s).z == PointAt(tri, a, b).z;
    }
  }

  /** When the offset is `a e1 + b e2 - s d`, the source's formulas compute exactly `a`, `b` and `s`. */
  lemma SolveRecovers(tri: Triangle, ray: Ray, s: real, a: real, b: real)
    requires Determinant(tri, ray) != 0.0
    requires Sub(ray.origin, tri.vertices[0])
          == Add(Add(Scale(a, Edge1(tri.vertices)), Scale(b, Edge2(tri.vertices))), Scale(-s, ray.direction))
    ensures Solve(tri, ray) == Solution(a, b, s)
  {
    var e1, e2, d := Edge1(tri.vertices), Edge2(tri.vertices), ray.direction;
    var tvec := Sub(ray.origin, tri.vertices[0]);
    SolveByTriples(tri, ray);
    var det := Triple(e1, d, e2);
    CramerFirst(e1, d, e2, tvec, a, b, s);
    CramerSecond(e1, d, e2, tvec, a, b, s);
    CramerThird(e1, d, e2, tvec, a, b, s);
    RatioIs(Triple(tvec, d, e2), det, a);
    RatioIs(Triple(e1, d, tvec), det, b);
    NegatedRatioIs(Triple(e1, tvec, e2), det, s);
  }

  /** Cramer's rule for the first coefficient of a combination `x == a e1 + b e2 - s d`. */
  lemma CramerFirst(e1: Vec3, d: Vec3, e2: Vec3, x: Vec3, a: real, b: real, s: real)
    requires x == Add(Add(Scale(a, e1), Scale(b, e2)), Scale(-s, d))
    ensures Triple(x, d, e2) == a * Triple(e1, d, e2)
  {
    TripleLinear(a, e1, b, e2, -s, d, d, e2);
    TripleRepeats(e2, d);
    TripleRepeats(d, e2);
    KeepFirst(a, Triple(e1, d, e2), b, Triple(e2, d, e2), -s, Triple(d, d, e2));
  }

  /** Cramer's rule for the second coefficient. */
  lemma CramerSecond(e1: Vec3, d: Vec3, e2: Vec3, x: Vec3, a: real, b: real, s: real)
    requires x == Add(Add(Scale(a, e1), Scale(b, e2)), Scale(-s, d))
    ensures Triple(e1, d, x) == b * Triple(e1, d, e2)
  {
    TripleCycles(e1, d, x);
    TripleLinear(a, e1, b, e2, -s, d, e1, d);
    TripleRepeats(e1, d);
    TripleRepeats(d, e1);
    TripleCycles(e1, d, e2);
    KeepSecond(a, Triple(e1, e1, d), b, Triple(e2, e1, d), -s, Triple(d, e1, d));
  }

  /** Cramer's rule for the ray parameter. */
  lemma CramerThird(e1: Vec3, d: Vec3, e2: Vec3, x: Vec3, a: real, b: real, s: real)
    requires x == Add(Add(Scale(a, e1), Scale(b, e2)), Scale(-s, d))
    ensures Triple(e1, x, e2) == -s * Triple(e1, d, e2)
  {
    TripleCycles(e1, x, e2);
    TripleLinear(a, e1, b, e2, -s, d, e2, e1);
    TripleRepeats(e1, e2);
    TripleRepeats(e2, e1);
    TripleCycles(e1, d, e2);
    KeepThird(a, Triple(e1, e2, e1), b, Triple(e2, e2, e1), -s, Triple(d, e2, e1));
  }

  /** Three-term sums in which all but one triple product vanishes. */
  lemma KeepFirst(a: real, t1: real, b: real, t2: real, c: real, t3: real)
    requires t2 == 0.0 && t3 == 0.0
    ensures a * t1 + b * t2 + c * t3 == a * t1
  {
  }

  lemma KeepSecond(a: real, t1: real, b: real, t2: real, c: real, t3: real)
    requires t1 == 0.0 && t3 == 0.0
    ensures a * t1 + b * t2 + c * t3 == b * t2
  {
  }

  lemma KeepThird(a: real, t1: real, b: real, t2: real, c: real, t3: real)
    requires t1 == 0.0 && t2 == 0.0
    ensures a * t1 + b * t2 + c * t3 == c * t3
  {
  }

  /** A multiple `k * det` divided by a nonzero `det` gives back `k`. */
  lemma RatioIs(num: real, det: real, k: real)
    requires det != 0.0 && num == k * det
    ensures num / det == k
  {
  }

  lemma NegatedRatioIs(num: real, det: real, k: real)
    requires det != 0.0 && num == -k * det
    ensures -num / det == k
  {
  }

  /** `Solve`'s dot-and-cross formulas are ratios of triple products. */
  lemma SolveByTriples(tri: Triangle, ray: Ray)
    requires Determinant(tri, ray) != 0.0
    ensures var e1, e2, d := Edge1(tri.vertices), Edge2(tri.vertices), ray.direction;
      var tvec := Sub(ray.origin, tri.vertices[0]);
      var det := Triple(e1, d, e2);
      && det == Determinant(tri, ray)
      && Solve(tri, ray) == Solution(Triple(tvec, d, e2) / det, Triple(e1, d, tvec) / det, -Triple(e1, tvec, e2) / det)
  {
    var e1, e2, d := Edge1(tri.vertices), Edge2(tri.vertices), ray.direction;
    var tvec := Sub(ray.origin, tri.vertices[0]);
    TripleIsDotCross(e1, d, e2);
    TripleIsDotCross(tvec, d, e2);
    TripleIsDotCross(d, tvec, e1);
    TripleIsDotCross(e2, tvec, e1);
    TripleCycles(d, tvec, e1);
    TripleCycles(e2, tvec, e1);
    TripleSwaps(e1, tvec, e2);
  }

  /** Cramer's rule: with a nonzero determinant, `x == u a + v c - t b` for these triple-product ratios. */
  lemma CramerTriple(a: Vec3, b: Vec3, c: Vec3, x: Vec3)
    requires Triple(a, b, c) != 0.0
    ensures var det := Triple(a, b, c);
      x == Sub(Add(Scale(Triple(x, b, c) / det, a), Scale(Triple(a, b, x) / det, c)), Scale(-Triple(a, x, c) / det, b))
  {
    TripleProductExpansion(a, b, c, x);
    SolveComponents(Triple(a, b, c), Triple(x, b, c), Triple(a, x, c), Triple(a, b, x), a, b, c, x);
  }

  /** Dividing the three components of Cramer's identity by a nonzero determinant. */
  lemma SolveComponents(det: real, p: real, q: real, r: real, a: Vec3, b: Vec3, c: Vec3, x: Vec3)
    requires det != 0.0
    requires det * x.x == p * a.x + q * b.x + r * c.x
    requires det * x.y == p * a.y + q * b.y + r * c.y
    requires det * x.z == p * a.z + q * b.z + r * c.z
    ensures x == Sub(Add(Scale(p / det, a), Scale(r / det, c)), Scale(-q / det, b))
  {
    DivideThrough(det, x.x, p, a.x, q, b.x, r, c.x);
    DivideThrough(det, x.y, p, a.y, q, b.y, r, c.y);
    DivideThrough(det, x.z, p, a.z, q, b.z, r, c.z);
  }

  /** Dividing one component of Cramer's identity by a nonzero determinant. */
  lemma DivideThrough(det: real, x: real, p: real, a: real, q: real, b: real, r: real, c: real)
    requires det != 0.0
    requires det * x == p * a + q * b + r * c
    ensures x == (p / det) * a + (r / det) * c - (-q / det) * b
  {
  }

  // ---------------------------------------------------------------------------
  // Local 2D coordinates
  // ---------------------------------------------------------------------------

  /**
    `local_2d_coordinates`: the ratios of the doubled areas of (v0, v2, p) and
    (v0, v1, p) to the doubled area of the triangle. The source divides by the
    triangle's area, so a degenerate triangle is excluded here.
   */
  function Local2dCoordinates(norm: Vec3 -> real, tri: Triangle, p: Point3): Point2
    requires DoubledAreaOf(norm, tri.vertices) != 0.0
  {
    var selfArea := DoubledAreaOf(norm, tri.vertices);
    var capArea := DoubledAreaOf(norm, [tri.vertices[0], tri.vertices[2], p]);
    var abpArea := DoubledAreaOf(norm, [tri.vertices[0], tri.vertices[1], p]);
    Vec2(capArea / selfArea, abpArea / selfArea)
  }

  /** The two cross products `local_2d_coordinates` takes the norm of, for a point `v0 + a e1 + b e2`. */
  lemma CrossOfCombination(e1: Vec3, e2: Vec3, a: real, b: real)
    ensures Cross(e2, Add(Scale(a, e1), Scale(b, e2))) == Scale(-a, Cross(e1, e2))
    ensures Cross(e1, Add(Scale(a, e1), Scale(b, e2))) == Scale(b, Cross(e1, e2))
  {
    CrossOfCombinationWithSecond(e1, e2, a, b);
    CrossOfCombinationWithFirst(e1, e2, a, b);
  }

  lemma CrossOfCombinationWithSecond(e1: Vec3, e2: Vec3, a: real, b: real)
    ensures Cross(e2, Add(Scale(a, e1), Scale(b, e2))) == Scale(-a, Cross(e1, e2))
  {
    // Bilinearity: e2 x (a e1 + b e2) == a (e2 x e1) + b (e2 x e2) == -a (e1 x e2).
    CrossDistributes(e2, Scale(a, e1), Scale(b, e2));
    CrossScales(e2, a, e1);
    CrossScales(e2, b, e2);
    CrossSwaps(e1, e2);
    CrossSelf(e2);
    NegatedPlusNothing(a, b, Cross(e1, e2));
  }

  lemma CrossOfCombinationWithFirst(e1: Vec3, e2: Vec3, a: real, b: real)
    ensures Cross(e1, Add(Scale(a, e1), Scale(b, e2))) == Scale(b, Cross(e1, e2))
  {
    // Bilinearity: e1 x (a e1 + b e2) == a (e1 x e1) + b (e1 x e2) == b (e1 x e2).
    CrossDistributes(e1, Scale(a, e1), Scale(b, e2));
    CrossScales(e1, a, e1);
    CrossScales(e1, b, e2);
    CrossSelf(e1);
    NothingPlusScaled(a, b, Cross(e1, e2));
  }

  lemma NegatedPlusNothing(a: real, b: real, c: Vec3)
    ensures Add(Scale(a, Scale(-1.0, c)), Scale(b, Zero)) == Scale(-a, c)
  {
  }

  lemma NothingPlusScaled(a: real, b: real, c: Vec3)
    ensures Add(Scale(a, Zero), Scale(b, c)) == Scale(b, c)
  {
  }

  /**
    For a point of the triangle's plane with non-negative parameters, the local
    coordinates are exactly those parameters: `local_2d_coordinates` inverts `PointAt`.
   */
  lemma LocalCoordinatesInvertPointAt(norm: Vec3 -> real, tri: Triangle, a: real, b: real)
    requires Homogeneous(norm)
    requires DoubledAreaOf(norm, tri.vertices) != 0.0
    requires a >= 0.0 && b >= 0.0
    ensures Local2dCoordinates(norm, tri, PointAt(tri, a, b)) == Vec2(a, b)
  {
    SubAreas(norm, tri, a, b);
    var area := DoubledAreaOf(norm, tri.vertices);
    var p := PointAt(tri, a, b);
    CancelArea(area, a, DoubledAreaOf(norm, [tri.vertices[0], tri.vertices[2], p]));
    CancelArea(area, b, DoubledAreaOf(norm, [tri.vertices[0], tri.vertices[1], p]));
  }

  /** The doubled area of the triangle `(v0, q, v0 + w)` is the norm of `(q - v0) x w`. */
  lemma FanArea(norm: Vec3 -> real, v0: Point3, q: Point3, w: Vec3)
    ensures DoubledAreaOf(norm, [v0, q, Add(v0, w)]) == norm(Cross(Sub(q, v0), w))
  {
    SubAddCancels(v0, w);
  }

  /** The doubled areas of the sub-triangles `(v0, v2, p)` and `(v0, v1, p)` for `p = v0 + a e1 + b e2`. */
  lemma SubAreas(norm: Vec3 -> real, tri: Triangle, a: real, b: real)
    requires Homogeneous(norm)
    requires a >= 0.0 && b >= 0.0
    ensures DoubledAreaOf(norm, [tri.vertices[0], tri.vertices[2], PointAt(tri, a, b)]) == a * DoubledAreaOf(norm, tri.vertices)
    ensures DoubledAreaOf(norm, [tri.vertices[0], tri.vertices[1], PointAt(tri, a, b)]) == b * DoubledAreaOf(norm, tri.vertices)
  {
    var v0, v1, v2 := tri.vertices[0], tri.vertices[1], tri.vertices[2];
    var e1, e2 := Sub(v1, v0), Sub(v2, v0);
    var w := Add(Scale(a, e1), Scale(b, e2));
    assert PointAt(tri, a, b) == Add(v0, w);
    FanArea(norm, v0, v2, w);
    FanArea(norm, v0, v1, w);
    AreasOfCombination(norm, e1, e2, a, b);
  }

  /** The doubled areas of the two sub-triangles at `v0 + a e1 + b e2`, relative to the whole. */
  lemma AreasOfCombination(norm: Vec3 -> real, e1: Vec3, e2: Vec3, a: real, b: real)
    requires Homogeneous(norm)
    requires a >= 0.0 && b >= 0.0
    ensures norm(Cross(e2, Add(Scale(a, e1), Scale(b, e2)))) == a * norm(Cross(e1, e2))
    ensures norm(Cross(e1, Add(Scale(a, e1), Scale(b, e2)))) == b * norm(Cross(e1, e2))
  {
    CrossOfCombination(e1, e2, a, b);
    ScaledArea(norm, a, b, Cross(e1, e2));
  }

  /** The norms of `-a n` and `b n` for non-negative `a` and `b`. */
  lemma ScaledArea(norm: Vec3 -> real, a: real, b: real, n: Vec3)
    requires Homogeneous(norm)
    requires a >= 0.0 && b >= 0.0
    ensures norm(Scale(-a, n)) == a * norm(n)
    ensures norm(Scale(b, n)) == b * norm(n)
  {
    NormScales(norm, -a, n);
    NormScales(norm, b, n);
  }

  /** A part that is `k` times the whole, divided by the whole, is `k`. */
  lemma CancelArea(area: real, k: real, part: real)
    requires area != 0.0 && part == k * area
    ensures part / area == k
  {
  }

  /** The test's reference values: v0, v1 and v2 have local coordinates (0,0), (1,0) and (0,1). */
  lemma LocalCoordinatesOfVertices(norm: Vec3 -> real, tri: Triangle)
    requires Homogeneous(norm)
    requires DoubledAreaOf(norm, tri.vertices) != 0.0
    ensures Local2dCoordinates(norm, tri, GetV(tri, 0)) == Vec2(0.0, 0.0)
    ensures Local2dCoordinates(norm, tri, GetV(tri, 1)) == Vec2(1.0, 0.0)
    ensures Local2dCoordinates(norm, tri, GetV(tri, 2)) == Vec2(0.0, 1.0)
  {
    LocalCoordinatesOfVertex0(norm, tri);
    PointAtVertex1(tri);
    PointAtVertex2(tri);
    LocalCoordinatesInvertPointAt(norm, tri, 1.0, 0.0);
    LocalCoordinatesInvertPointAt(norm, tri, 0.0, 1.0);
  }

  /** Both sub-triangles at v0 are degenerate, so both areas, and both coordinates, are zero. */
  lemma LocalCoordinatesOfVertex0(norm: Vec3 -> real, tri: Triangle)
    requires Homogeneous(norm)
    requires DoubledAreaOf(norm, tri.vertices) != 0.0
    ensures Local2dCoordinates(norm, tri, GetV(tri, 0)) == Vec2(0.0, 0.0)
  {
    var v := tri.vertices;
    CrossWithNothing(Edge1(v), v[0]);
    CrossWithNothing(Edge2(v), v[0]);
    NormOfZero(norm);
    assert DoubledAreaOf(norm, [v[0], v[2], v[0]]) == 0.0;
    assert DoubledAreaOf(norm, [v[0], v[1], v[0]]) == 0.0;
  }

  /** The parameters (1, 0) and (0, 1) name vertices 1 and 2. */
  lemma PointAtVertex1(tri: Triangle)
    ensures PointAt(tri, 1.0, 0.0) == GetV(tri, 1)
  {
  }

  lemma PointAtVertex2(tri: Triangle)
    ensures PointAt(tri, 0.0, 1.0) == GetV(tri, 2)
  {
  }

  /** A triangle whose edges are parallel gives every ray a zero determinant. */
  lemma DegenerateIsParallel(tri: Triangle, ray: Ray)
    ensures Cross(Edge1(tri.vertices), Edge2(tri.vertices)) == Zero ==> Determinant(tri, ray) == 0.0
  {
    var e1, e2, d := Edge1(tri.vertices), Edge2(tri.vertices), ray.direction;
    TripleIsDotCross(d, e1, e2);
    TripleSwaps(e1, d, e2);
    TripleIsDotCross(e1, d, e2);
  }

  /**
    A point reported by `intersects` has well-defined local coordinates, and they
    are the barycentric parameters `u`, `v` the intersection test computed.
   */
  lemma HitLocalCoordinates(norm: Vec3 -> real, tri: Triangle, ray: Ray)
    requires IsNorm(norm)
    requires Intersects(tri, ray).Some?
    ensures DoubledAreaOf(norm, tri.vertices) != 0.0
    ensures Local2dCoordinates(norm, tri, Intersects(tri, ray).value) == Vec2(Solve(tri, ray).u, Solve(tri, ray).v)
  {
    IntersectsSound(tri, ray);
    DegenerateIsParallel(tri, ray);
    NormDefinite(norm, Cross(Edge1(tri.vertices), Edge2(tri.vertices)));
    LocalCoordinatesInvertPointAt(norm, tri, Solve(tri, ray).u, Solve(tri, ray).v);
  }

  // ---------------------------------------------------------------------------
  // Transforms
  // ---------------------------------------------------------------------------

  /**
    `Transform * Triangle`, for every transform kind the source supports: the
    transform's action `f` on points is applied to each vertex and the triangle is
    rebuilt with `New`, so the normal is recomputed, never transformed.
   */
  function Apply(unit: Vec3 -> Vec3, f: Point3 -> Point3, t: Triangle): (r: Triangle)
    ensures forall i :: 0 <= i < 3 ==> GetV(r, i) == f(GetV(t, i))
    ensures Valid(unit, r)
  {
    New(unit, [f(t.vertices[0]), f(t.vertices[1]), f(t.vertices[2])])
  }

  /** A 3x3 matrix given by its rows. */
  datatype Matrix3 = Matrix3(row0: Vec3, row1: Vec3, row2: Vec3)

  function MulPoint(m: Matrix3, p: Point3): Point3 {
    Vec3(Dot(m.row0, p), Dot(m.row1, p), Dot(m.row2, p))
  }

  /** `Matrix3 * Triangle`. */
  function MultiplyMatrix(unit: Vec3 -> Vec3, m: Matrix3, t: Triangle): Triangle {
    Apply(unit, p => MulPoint(m, p), t)
  }

  /**
    A matrix maps the point with local coordinates `(a, b)` of a triangle to the
    point with the same local coordinates of the multiplied triangle: the image of
    a triangle under a linear map is the triangle of the mapped vertices.
   */
  lemma MultiplyMatrixKeepsPoints(unit: Vec3 -> Vec3, m: Matrix3, t: Triangle, a: real, b: real)
    ensures PointAt(MultiplyMatrix(unit, m, t), a, b) == MulPoint(m, PointAt(t, a, b))
  {
    var vs := t.vertices;
    var ws := MultiplyMatrix(unit, m, t).vertices;
    assert ws[0] == MulPoint(m, vs[0]) && ws[1] == MulPoint(m, vs[1]) && ws[2] == MulPoint(m, vs[2]);
    MatrixKeepsPoints(m, vs[0], vs[1], vs[2], a, b);
  }

  /** The matrix commutes with `p0 + a (p1 - p0) + b (p2 - p0)`, since it is linear. */
  lemma MatrixKeepsPoints(m: Matrix3, p0: Point3, p1: Point3, p2: Point3, a: real, b: real)
    ensures MulPoint(m, Add(p0, Add(Scale(a, Sub(p1, p0)), Scale(b, Sub(p2, p0)))))
         == Add(MulPoint(m, p0), Add(Scale(a, Sub(MulPoint(m, p1), MulPoint(m, p0))),
                                     Scale(b, Sub(MulPoint(m, p2), MulPoint(m, p0)))))
  {
    var u := Scale(a, Sub(p1, p0));
    var w := Scale(b, Sub(p2, p0));
    MulAdds(m, p0, Add(u, w));
    MulAdds(m, u, w);
    MulScales(m, a, Sub(p1, p0));
    MulScales(m, b, Sub(p2, p0));
    MulSubs(m, p1, p0);
    MulSubs(m, p2, p0);
  }

  lemma MulAdds(m: Matrix3, u: Vec3, w: Vec3)
    ensures MulPoint(m, Add(u, w)) == Add(MulPoint(m, u), MulPoint(m, w))
  {
  }

  lemma MulSubs(m: Matrix3, u: Vec3, w: Vec3)
    ensures MulPoint(m, Sub(u, w)) == Sub(MulPoint(m, u), MulPoint(m, w))
  {
  }

  lemma MulScales(m: Matrix3, a: real, u: Vec3)
    ensures MulPoint(m, Scale(a, u)) == Scale(a, MulPoint(m, u))
  {
    DotScales(m.row0, a, u);
    DotScales(m.row1, a, u);
    DotScales(m.row2, a, u);
  }

  lemma DotScales(r: Vec3, a: real, u: Vec3)
    ensures Dot(r, Scale(a, u)) == a * Dot(r, u)
  {
    assert r.x * (a * u.x) == a * (r.x * u.x);
    assert r.y * (a * u.y) == a * (r.y * u.y);
    assert r.z * (a * u.z) == a * (r.z * u.z);
  }

  /** The matrix test case: multiplying a triangle multiplies each of its vertices. */
  lemma MultiplyMatrixExample(unit: Vec3 -> Vec3)
    ensures var vs := [Vec3(1.0, 0.0, 0.0), Vec3(0.0, 1.0, 0.0), Vec3(-1.0, 0.0, 0.0)];
      var m := Matrix3(Vec3(1.0, 2.0, 3.0), Vec3(3.0, 1.5, -7.0), Vec3(-3.14, 1.57, -3.0));
      && MultiplyMatrix(unit, m, New(unit, vs)) == New(unit, [MulPoint(m, vs[0]), MulPoint(m, vs[1]), MulPoint(m, vs[2])])
      && MultiplyMatrix(unit, m, New(unit, vs)).vertices
         == [Vec3(1.0, 3.0, -3.14), Vec3(2.0, 1.5, 1.57), Vec3(-1.0, -3.0, 3.14)]
  {
    var m := Matrix3(Vec3(1.0, 2.0, 3.0), Vec3(3.0, 1.5, -7.0), Vec3(-3.14, 1.57, -3.0));
    assert MulPoint(m, Vec3(1.0, 0.0, 0.0)) == Vec3(1.0, 3.0, -3.14);
    assert MulPoint(m, Vec3(0.0, 1.0, 0.0)) == Vec3(2.0, 1.5, 1.57);
    assert MulPoint(m, Vec3(-1.0, 0.0, 0.0)) == Vec3(-1.0, -3.0, 3.14);
  }

  /** `Translation3 * Triangle`. */
  function Translate(unit: Vec3 -> Vec3, offset: Vec3, t: Triangle): Triangle {
    Apply(unit, p => Add(p, offset), t)
  }

  /** The result of a transform depends on the vertices alone, not on the cached normal. */
  lemma ApplyIgnoresNormal(unit: Vec3 -> Vec3, f: Point3 -> Point3, t: Triangle, n: Vec3)
    ensures Apply(unit, f, t) == Apply(unit, f, t.(normal := n))
  {
  }

  /**
    Applying `g` and then `f` is applying their composition once. Rust's `*` groups
    to the left, so `rotation * translation * tri` already applies the composed
    isometry once; the lemma is what `rotation * (translation * tri)` relies on to
    give the same triangle.
   */
  lemma ApplyComposes(unit: Vec3 -> Vec3, f: Point3 -> Point3, g: Point3 -> Point3, t: Triangle)
    ensures Apply(unit, f, Apply(unit, g, t)) == Apply(unit, p => f(g(p)), t)
  {
  }

  /** A translation moves both edges by nothing, so the recomputed normal of a valid triangle is its old one. */
  lemma TranslationKeepsNormal(unit: Vec3 -> Vec3, offset: Vec3, t: Triangle)
    requires Valid(unit, t)
    ensures Translate(unit, offset, t).normal == t.normal
    ensures forall i :: 0 <= i < 3 ==> GetV(Translate(unit, offset, t), i) == Add(GetV(t, i), offset)
  {
    var r := Translate(unit, offset, t);
    assert Edge1(r.vertices) == Edge1(t.vertices);
    assert Edge2(r.vertices) == Edge2(t.vertices);
  }
}
