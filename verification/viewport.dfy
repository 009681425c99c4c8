/**
  The viewport: the screen size, the perspective projection and the per-pixel
  sub-sample offsets, and the casting of one ray per offset through a pixel.

  The noise generator and the projection's `unproject_point` come from
  libraries and are passed in as functions.
 */
module Viewports {
  import opened Geometry

  newtype u32 = x: int | 0 <= x < 0x1_0000_0000

  /** `ScreenPoint`: a pixel position in unsigned screen coordinates. */
  datatype ScreenPoint = ScreenPoint(x: u32, y: u32)

  /** The parameters `Perspective3::new` is given. */
  datatype Perspective = Perspective(aspect: real, fovy: real, znear: real, zfar: real)

  datatype Viewport = Viewport(width: real, height: real, projection: Perspective, pointOffsets: seq<Vec2>)

  /** A viewport whose sides are positive, so that points can be normalized against them. */
  predicate Valid(vp: Viewport) {
    vp.width > 0.0 && vp.height > 0.0
  }

  /** The offset every sub-sample gets: half of the noise sampled at the origin, on both axes. */
  function SampleOffset(noise: (real, real) -> real): Vec2 {
    Vec2(0.5 * noise(0.0, 0.0), 0.5 * noise(0.0, 0.0))
  }

  /**
    `Viewport::new`: stores the sizes, builds the projection with aspect ratio
    `width / height`, and draws `pointRaysCount` offsets from the noise, each
    halved. Every draw samples the noise at (0, 0).
   */
  function NewViewport(noise: (real, real) -> real, width: u32, height: u32, fovy: real, znear: real, zfar: real,
               pointRaysCount: nat): (vp: Viewport)
    requires width > 0 && height > 0
    ensures Valid(vp)
    ensures vp.width == width as real && vp.height == height as real
    ensures vp.projection == Perspective(vp.width / vp.height, fovy, znear, zfar)
    ensures |vp.pointOffsets| == pointRaysCount
    ensures forall i :: 0 <= i < |vp.pointOffsets| ==> vp.pointOffsets[i] == SampleOffset(noise)
  {
    Viewport(width as real, height as real,
             Perspective(width as real / height as real, fovy, znear, zfar),
             DrawOffsets(noise, pointRaysCount))
  }

  /** `n` draws of a noise vector at (0, 0), each halved, in the order they are drawn. */
  function DrawOffsets(noise: (real, real) -> real, n: nat): (offsets: seq<Vec2>)
    ensures |offsets| == n
    ensures forall i :: 0 <= i < n ==> offsets[i] == SampleOffset(noise)
  {
    if n == 0 then []
    else
      var v := Vec2(noise(0.0, 0.0), noise(0.0, 0.0));
      DrawOffsets(noise, n - 1) + [Vec2(v.x * 0.5, v.y * 0.5)]
  }

  function GetWidth(vp: Viewport): real {
    vp.width
  }

  function GetHeight(vp: Viewport): real {
    vp.height
  }

  /** `get_rays_count`: one ray per stored offset. */
  function GetRaysCount(vp: Viewport): nat {
    |vp.pointOffsets|
  }

  /** A viewport reports back the sizes and ray count it was built with, as the creation test checks. */
  lemma NewAccessors(noise: (real, real) -> real, width: u32, height: u32, fovy: real, znear: real, zfar: real,
                     pointRaysCount: nat)
    requires width > 0 && height > 0
    ensures var vp := NewViewport(noise, width, height, fovy, znear, zfar, pointRaysCount);
      && GetWidth(vp) == width as real
      && GetHeight(vp) == height as real
      && GetRaysCount(vp) == pointRaysCount
  {
  }

  /** All offsets of a new viewport coincide, since each draw samples the noise at the same point. */
  lemma NewOffsetsCoincide(noise: (real, real) -> real, width: u32, height: u32, fovy: real, znear: real,
                           zfar: real, pointRaysCount: nat, i: nat, j: nat)
    requires width > 0 && height > 0
    requires i < pointRaysCount && j < pointRaysCount
    ensures var vp := NewViewport(noise, width, height, fovy, znear, zfar, pointRaysCount);
      vp.pointOffsets[i] == vp.pointOffsets[j]
  {
  }

  // ---------------------------------------------------------------------------
  // Normalization of screen points
  // ---------------------------------------------------------------------------

  /**
    `normalize_point`: maps the screen rectangle `[0, width] x [0, height]`, with
    `y` growing downwards, onto `[-0.5, 0.5] x [-0.5, 0.5]` with `y` growing upwards.
   */
  function NormalizePoint(vp: Viewport, p: Point2): (q: Point2)
    requires Valid(vp)
    ensures 0.0 <= p.x <= vp.width ==> -0.5 <= q.x <= 0.5
    ensures 0.0 <= p.y <= vp.height ==> -0.5 <= q.y <= 0.5
  {
    Vec2(p.x / vp.width - 0.5, 0.5 - p.y / vp.height)
  }

  /** The inverse of `NormalizePoint`: from the centred unit square back to screen coordinates. */
  function Denormalize(vp: Viewport, q: Point2): Point2 {
    Vec2((q.x + 0.5) * vp.width, (0.5 - q.y) * vp.height)
  }

  /** `Denormalize` and `NormalizePoint` are inverse bijections. */
  lemma NormalizeRoundTrip(vp: Viewport, p: Point2, q: Point2)
    requires Valid(vp)
    ensures Denormalize(vp, NormalizePoint(vp, p)) == p
    ensures NormalizePoint(vp, Denormalize(vp, q)) == q
  {
    DenormalizeUndoesNormalize(vp, p);
    NormalizeUndoesDenormalize(vp, q);
  }

  lemma DenormalizeUndoesNormalize(vp: Viewport, p: Point2)
    requires Valid(vp)
    ensures Denormalize(vp, NormalizePoint(vp, p)) == p
  {
    var n := NormalizePoint(vp, p);
    AxisRoundTrip(p.x, 0.0, vp.width);
    AxisRoundTrip(p.y, 0.0, vp.height);
    assert Denormalize(vp, n).x == (p.x / vp.width - 0.5 + 0.5) * vp.width;
    assert Denormalize(vp, n).y == (0.5 - (0.5 - p.y / vp.height)) * vp.height;
  }

  lemma NormalizeUndoesDenormalize(vp: Viewport, q: Point2)
    requires Valid(vp)
    ensures NormalizePoint(vp, Denormalize(vp, q)) == q
  {
    var d := Denormalize(vp, q);
    AxisRoundTrip(0.0, q.x, vp.width);
    AxisRoundTrip(0.0, q.y, vp.height);
    assert d.x == (q.x + 0.5) * vp.width && d.y == (0.5 - q.y) * vp.height;
    assert NormalizePoint(vp, d).x == d.x / vp.width - 0.5;
    assert NormalizePoint(vp, d).y == 0.5 - d.y / vp.height;
  }

  /** One axis of the round trip: screen coordinate `a` and centred coordinate `b` against side `d`. */
  lemma AxisRoundTrip(a: real, b: real, d: real)
    requires d > 0.0
    ensures (a / d - 0.5 + 0.5) * d == a && (0.5 - (0.5 - a / d)) * d == a
    ensures (b + 0.5) * d / d - 0.5 == b && 0.5 - (0.5 - b) * d / d == b
  {
    assert a / d - 0.5 + 0.5 == a / d && 0.5 - (0.5 - a / d) == a / d;
    Cancel(a, d);
    Cancel(b + 0.5, d);
    Cancel(0.5 - b, d);
  }

  /** Multiplying and dividing by the same nonzero `d` cancel, in either order. */
  lemma Cancel(a: real, d: real)
    requires d != 0.0
    ensures a / d * d == a && a * d / d == a
  {
  }

  /** The corners and the centre of the screen, as the normalization test checks them. */
  lemma NormalizeCorners(vp: Viewport)
    requires Valid(vp)
    ensures NormalizePoint(vp, Vec2(0.0, 0.0)) == Vec2(-0.5, 0.5)
    ensures NormalizePoint(vp, Vec2(vp.width, 0.0)) == Vec2(0.5, 0.5)
    ensures NormalizePoint(vp, Vec2(0.0, vp.height)) == Vec2(-0.5, -0.5)
    ensures NormalizePoint(vp, Vec2(vp.width, vp.height)) == Vec2(0.5, -0.5)
    ensures NormalizePoint(vp, Vec2(vp.width / 2.0, vp.height / 2.0)) == Vec2(0.0, 0.0)
  {
    SideRatios(vp.width);
    SideRatios(vp.height);
  }

  /** The ratios of 0, a half side and a whole side to the side. */
  lemma SideRatios(d: real)
    requires d > 0.0
    ensures 0.0 / d == 0.0 && (d / 2.0) / d == 0.5 && d / d == 1.0
  {
  }

  /** Normalization keeps the order along `x` and reverses it along `y`. */
  lemma NormalizeMonotone(vp: Viewport, p: Point2, p': Point2)
    requires Valid(vp)
    ensures p.x <= p'.x <==> NormalizePoint(vp, p).x <= NormalizePoint(vp, p').x
    ensures p.y <= p'.y <==> NormalizePoint(vp, p).y >= NormalizePoint(vp, p').y
  {
    DivisionMonotone(p.x, p'.x, vp.width);
    DivisionMonotone(p.y, p'.y, vp.height);
  }

  lemma DivisionMonotone(a: real, b: real, d: real)
    requires d > 0.0
    ensures a <= b <==> a / d <= b / d
  {
    if a <= b {
      assert b / d - a / d == (b - a) / d;
    } else {
      assert a / d - b / d == (a - b) / d;
    }
  }

  // ---------------------------------------------------------------------------
  // Ray casting
  // ---------------------------------------------------------------------------

  /**
    The ray through one offset screen point: the normalized point is lifted to
    the near (`z = -1`) and far (`z = 1`) planes of normalized device
    coordinates, both are unprojected, and the ray runs from near towards far.
   */
  function RayThrough(vp: Viewport, unproject: (Perspective, Point3) -> Point3, unit: Vec3 -> Vec3,
                      p: Point2): Ray
    requires Valid(vp)
  {
    var q := NormalizePoint(vp, p);
    var near := unproject(vp.projection, Vec3(q.x, q.y, -1.0));
    var far := unproject(vp.projection, Vec3(q.x, q.y, 1.0));
    NewRay(unit, near, Sub(far, near))
  }

  /** The screen point moved by a sub-sample offset. */
  function Shifted(sp: ScreenPoint, off: Vec2): Point2 {
    Vec2(sp.x as real + off.x, sp.y as real + off.y)
  }

  /** `cast_ray`: one ray per stored offset, in the order of the offsets. */
  function CastRay(vp: Viewport, unproject: (Perspective, Point3) -> Point3, unit: Vec3 -> Vec3, sp: ScreenPoint)
    : (rays: seq<Ray>)
    requires Valid(vp)
    ensures |rays| == GetRaysCount(vp)
    ensures forall i :: 0 <= i < |rays| ==> rays[i] == RayThrough(vp, unproject, unit, Shifted(sp, vp.pointOffsets[i]))
  {
    seq(|vp.pointOffsets|, i requires 0 <= i < |vp.pointOffsets| =>
      RayThrough(vp, unproject, unit, Shifted(sp, vp.pointOffsets[i])))
  }

  /**
   * The ray through a point starts on the near-plane unprojection of the
   * normalized point and reaches its far-plane unprojection. `unit` rescales the
   * direction `far - near` by the positive factor `k(far - near)`, so the far
   * point lies at parameter `1 / k(far - near)`.
   */
  lemma RayThroughReachesFar(vp: Viewport, unproject: (Perspective, Point3) -> Point3, unit: Vec3 -> Vec3,
                             k: Vec3 -> real, p: Point2)
    requires Valid(vp)
    requires forall v :: k(v) > 0.0 && unit(v) == Scale(k(v), v)
    ensures var q := NormalizePoint(vp, p);
      var near := unproject(vp.projection, Vec3(q.x, q.y, -1.0));
      var far := unproject(vp.projection, Vec3(q.x, q.y, 1.0));
      var r := RayThrough(vp, unproject, unit, p);
      && r.origin == near
      && At(r, 1.0 / k(Sub(far, near))) == far
  {
    var q := NormalizePoint(vp, p);
    var near := unproject(vp.projection, Vec3(q.x, q.y, -1.0));
    var far := unproject(vp.projection, Vec3(q.x, q.y, 1.0));
    var d := Sub(far, near);
    var r := RayThrough(vp, unproject, unit, p);
    assert r.direction == Scale(k(d), d);
    ScaleUndone(k(d), d);
    assert Add(near, d) == far;
  }

  /** Scaling by `1 / s` undoes scaling by a nonzero `s`. */
  lemma ScaleUndone(s: real, v: Vec3)
    requires s != 0.0
    ensures Scale(1.0 / s, Scale(s, v)) == v
  {
    assert 1.0 / s * (s * v.x) == v.x by { Reciprocal(s, v.x); }
    assert 1.0 / s * (s * v.y) == v.y by { Reciprocal(s, v.y); }
    assert 1.0 / s * (s * v.z) == v.z by { Reciprocal(s, v.z); }
  }

  lemma Reciprocal(s: real, a: real)
    requires s != 0.0
    ensures 1.0 / s * (s * a) == a
  {
    assert 1.0 / s * s == 1.0;
  }

  /** Equal offsets give equal rays: every ray a new viewport casts through a pixel is the same ray. */
  lemma CastRaysOfNewCoincide(noise: (real, real) -> real, width: u32, height: u32, fovy: real, znear: real,
                              zfar: real, pointRaysCount: nat, unproject: (Perspective, Point3) -> Point3,
                              unit: Vec3 -> Vec3, sp: ScreenPoint, i: nat, j: nat)
    requires width > 0 && height > 0
    requires i < pointRaysCount && j < pointRaysCount
    ensures var vp := NewViewport(noise, width, height, fovy, znear, zfar, pointRaysCount);
      RayThrough(vp, unproject, unit, Shifted(sp, vp.pointOffsets[i]))
      == RayThrough(vp, unproject, unit, Shifted(sp, SampleOffset(noise)))
  {
  }
}
