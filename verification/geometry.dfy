/**
  The slice of the linear-algebra library the renderer relies on, over exact reals:
  3D points and vectors, 2D points, dot and cross products, and the `Ray` record.

  Operations that need a square root (`norm`, `Unit::new_normalize`) are not
  defined here: the modules that use them take them as function parameters.
  `IsNorm` lists the properties of a norm that some proofs rely on.
 */
module Geometry {

  datatype Vec3 = Vec3(x: real, y: real, z: real)

  /** Points and vectors share one representation, as nalgebra's coordinates do. */
  type Point3 = Vec3

  datatype Vec2 = Vec2(x: real, y: real)

  type Point2 = Vec2

  /** A ray: an origin and a direction (unit length in the source, by construction). */
  datatype Ray = Ray(origin: Point3, direction: Vec3)

  const Zero: Vec3 := Vec3(0.0, 0.0, 0.0)

  function Add(a: Vec3, b: Vec3): Vec3 {
    Vec3(a.x + b.x, a.y + b.y, a.z + b.z)
  }

  function Sub(a: Vec3, b: Vec3): Vec3 {
    Vec3(a.x - b.x, a.y - b.y, a.z - b.z)
  }

  function Scale(s: real, a: Vec3): Vec3 {
    Vec3(s * a.x, s * a.y, s * a.z)
  }

  function Dot(a: Vec3, b: Vec3): real {
    a.x * b.x + a.y * b.y + a.z * b.z
  }

  function Cross(a: Vec3, b: Vec3): Vec3 {
    Vec3(a.y * b.z - a.z * b.y, a.z * b.x - a.x * b.z, a.x * b.y - a.y * b.x)
  }

  function Abs(r: real): real {
    if r < 0.0 then -r else r
  }

  /** The point reached after travelling `t` along the ray's direction. */
  function At(ray: Ray, t: real): Point3 {
    Add(ray.origin, Scale(t, ray.direction))
  }

  /** `Ray::new`: keeps the origin and normalizes the direction with `unit`. */
  function NewRay(unit: Vec3 -> Vec3, origin: Point3, direction: Vec3): (r: Ray)
    ensures r.origin == origin && r.direction == unit(direction)
  {
    Ray(origin, unit(direction))
  }

  /**
    `norm` applied to `v`. `IsNorm` is stated in terms of it, so that its
    quantifiers come into play only in the lemmas below that ask for them.
   */
  function NormOf(norm: Vec3 -> real, v: Vec3): real {
    norm(v)
  }

  /** Absolute homogeneity: scaling a vector by `s` scales its norm by `|s|`. */
  ghost predicate Homogeneous(norm: Vec3 -> real) {
    forall s: real, v: Vec3 :: NormOf(norm, Scale(s, v)) == Abs(s) * NormOf(norm, v)
  }

  /** Definiteness: only the zero vector has norm zero. */
  ghost predicate Definite(norm: Vec3 -> real) {
    forall v: Vec3 :: NormOf(norm, v) == 0.0 ==> v == Zero
  }

  /** The properties of the Euclidean norm that the proofs use. */
  ghost predicate IsNorm(norm: Vec3 -> real) {
    Homogeneous(norm) && Definite(norm)
  }

  /** The scalar triple product `a . (b x c)`, written out so that the solver sees a polynomial. */
  function Triple(a: Vec3, b: Vec3, c: Vec3): real {
    a.x * (b.y * c.z - b.z * c.y) + a.y * (b.z * c.x - b.x * c.z) + a.z * (b.x * c.y - b.y * c.x)
  }

  lemma TripleIsDotCross(a: Vec3, b: Vec3, c: Vec3)
    ensures Triple(a, b, c) == Dot(a, Cross(b, c))
  {
  }

  /** The triple product is invariant under a cyclic shift of its arguments. */
  lemma TripleCycles(a: Vec3, b: Vec3, c: Vec3)
    ensures Triple(a, b, c) == Triple(b, c, a) == Triple(c, a, b)
  {
  }

  /** Swapping two arguments negates the triple product. */
  lemma TripleSwaps(a: Vec3, b: Vec3, c: Vec3)
    ensures Triple(a, b, c) == -Triple(b, a, c)
  {
  }

  /** A triple product with a repeated argument vanishes. */
  lemma TripleRepeats(a: Vec3, b: Vec3)
    ensures Triple(a, a, b) == 0.0 && Triple(a, b, a) == 0.0 && Triple(b, a, a) == 0.0
  {
  }

  /** The triple product is linear in its first argument, for a combination of three vectors. */
  lemma TripleLinear(a: real, u: Vec3, b: real, v: Vec3, c: real, w: Vec3, y: Vec3, z: Vec3)
    ensures Triple(Add(Add(Scale(a, u), Scale(b, v)), Scale(c, w)), y, z)
         == a * Triple(u, y, z) + b * Triple(v, y, z) + c * Triple(w, y, z)
  {
    // The triple product is `x.x k1 + x.y k2 + x.z k3` with cofactors depending on `y` and `z` only.
    var k1, k2, k3 := y.y * z.z - y.z * z.y, y.z * z.x - y.x * z.z, y.x * z.y - y.y * z.x;
    var x := Add(Add(Scale(a, u), Scale(b, v)), Scale(c, w));
    TripleByCofactors(x, y, z);
    TripleByCofactors(u, y, z);
    TripleByCofactors(v, y, z);
    TripleByCofactors(w, y, z);
    DistributeThree(a, u.x, b, v.x, c, w.x, k1);
    DistributeThree(a, u.y, b, v.y, c, w.y, k2);
    DistributeThree(a, u.z, b, v.z, c, w.z, k3);
    Regroup(a, u.x * k1, u.y * k2, u.z * k3, b, v.x * k1, v.y * k2, v.z * k3, c, w.x * k1, w.y * k2, w.z * k3);
  }

  /** The triple product as the first argument's coordinates weighted by the cofactors of the other two. */
  lemma TripleByCofactors(x: Vec3, y: Vec3, z: Vec3)
    ensures Triple(x, y, z)
         == x.x * (y.y * z.z - y.z * z.y) + x.y * (y.z * z.x - y.x * z.z) + x.z * (y.x * z.y - y.y * z.x)
  {
  }

  lemma DistributeThree(a: real, p: real, b: real, q: real, c: real, r: real, k: real)
    ensures (a * p + b * q + c * r) * k == a * (p * k) + b * (q * k) + c * (r * k)
  {
  }

  /** Collecting the terms of three three-term sums by their coefficients. */
  lemma Regroup(a: real, p1: real, p2: real, p3: real, b: real, q1: real, q2: real, q3: real,
                c: real, r1: real, r2: real, r3: real)
    ensures (a * p1 + b * q1 + c * r1) + (a * p2 + b * q2 + c * r2) + (a * p3 + b * q3 + c * r3)
         == a * (p1 + p2 + p3) + b * (q1 + q2 + q3) + c * (r1 + r2 + r3)
  {
  }

  /** Adding `w` to `v` and then subtracting `v` gives back `w`. */
  lemma SubAddCancels(v: Vec3, w: Vec3)
    ensures Sub(Add(v, w), v) == w
  {
  }

  /** Crossing with the difference of a point and itself gives the zero vector. */
  lemma CrossWithNothing(e: Vec3, a: Vec3)
    ensures Cross(e, Sub(a, a)) == Zero
  {
  }

  /** The cross product distributes over addition in its second argument. */
  lemma CrossDistributes(u: Vec3, v: Vec3, w: Vec3)
    ensures Cross(u, Add(v, w)) == Add(Cross(u, v), Cross(u, w))
  {
  }

  /** A scalar factor of the second argument moves out of the cross product. */
  lemma CrossScales(u: Vec3, k: real, v: Vec3)
    ensures Cross(u, Scale(k, v)) == Scale(k, Cross(u, v))
  {
    var w := Scale(k, v);
    assert Cross(u, w).x == Scale(k, Cross(u, v)).x by {
      MinorScales(k, u.y, v.z, u.z, v.y);
    }
    assert Cross(u, w).y == Scale(k, Cross(u, v)).y by {
      MinorScales(k, u.z, v.x, u.x, v.z);
    }
    assert Cross(u, w).z == Scale(k, Cross(u, v)).z by {
      MinorScales(k, u.x, v.y, u.y, v.x);
    }
  }

  /** One coordinate of `CrossScales`. */
  lemma MinorScales(k: real, p: real, q: real, r: real, s: real)
    ensures p * (k * q) - r * (k * s) == k * (p * q - r * s)
  {
  }

  /** Swapping the arguments negates the cross product. */
  lemma CrossSwaps(u: Vec3, v: Vec3)
    ensures Cross(v, u) == Scale(-1.0, Cross(u, v))
  {
  }

  /** A vector crossed with itself is the zero vector. */
  lemma CrossSelf(u: Vec3)
    ensures Cross(u, u) == Zero
  {
  }

  /** Absolute homogeneity of a norm, one instance at a time. */
  lemma NormScales(norm: Vec3 -> real, s: real, v: Vec3)
    requires Homogeneous(norm)
    ensures norm(Scale(s, v)) == Abs(s) * norm(v)
  {
    assert NormOf(norm, Scale(s, v)) == Abs(s) * NormOf(norm, v);
  }

  /** A norm vanishes at the zero vector. */
  lemma NormOfZero(norm: Vec3 -> real)
    requires Homogeneous(norm)
    ensures norm(Zero) == 0.0
  {
    NormScales(norm, 0.0, Zero);
    assert Scale(0.0, Zero) == Zero;
  }

  /** Definiteness of a norm, one instance at a time. */
  lemma NormDefinite(norm: Vec3 -> real, v: Vec3)
    requires Definite(norm)
    ensures norm(v) == 0.0 ==> v == Zero
  {
    assert NormOf(norm, v) == 0.0 ==> v == Zero;
  }

  /**
    Cramer's rule for three vectors: `x`, scaled by the triple product of `a`, `b`, `c`,
    is the combination of `a`, `b`, `c` whose coefficients are the triple products with
    `x` put in place of each of them.
   */
  lemma TripleProductExpansion(a: Vec3, b: Vec3, c: Vec3, x: Vec3)
    ensures Triple(a, b, c) * x.x == Triple(x, b, c) * a.x + Triple(a, x, c) * b.x + Triple(a, b, x) * c.x
    ensures Triple(a, b, c) * x.y == Triple(x, b, c) * a.y + Triple(a, x, c) * b.y + Triple(a, b, x) * c.y
    ensures Triple(a, b, c) * x.z == Triple(x, b, c) * a.z + Triple(a, x, c) * b.z + Triple(a, b, x) * c.z
  {
    ExpansionX(a, b, c, x);
    ExpansionY(a, b, c, x);
    ExpansionZ(a, b, c, x);
  }

  lemma ExpansionX(a: Vec3, b: Vec3, c: Vec3, x: Vec3)
    ensures Triple(a, b, c) * x.x == Triple(x, b, c) * a.x + Triple(a, x, c) * b.x + Triple(a, b, x) * c.x
  {
  }

  lemma ExpansionY(a: Vec3, b: Vec3, c: Vec3, x: Vec3)
    ensures Triple(a, b, c) * x.y == Triple(x, b, c) * a.y + Triple(a, x, c) * b.y + Triple(a, b, x) * c.y
  {
  }

  lemma ExpansionZ(a: Vec3, b: Vec3, c: Vec3, x: Vec3)
    ensures Triple(a, b, c) * x.z == Triple(x, b, c) * a.z + Triple(a, x, c) * b.z + Triple(a, b, x) * c.z
  {
  }
}
