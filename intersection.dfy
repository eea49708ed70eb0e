/** The geometric core of the ray queries: the Moller-Trumbore ray/triangle
    test and the nearest-hit selection of the brute-force scan. */
module Intersection {
  import opened Vectors

  /** Below this magnitude the determinant counts as zero: the ray is taken
      to be parallel to the triangle's plane. */
  const Epsilon: real := 0.00000001

  /** Distance along the ray and barycentric coordinates of a hit. */
  datatype Barycentric = Barycentric(t: real, u: real, v: real)

  /** The determinant `edge1 . (direction x edge2)` of the test. */
  function Determinant(v0: Vec3, v1: Vec3, v2: Vec3, ray: Ray): real {
    Dot(Sub(v1, v0), Cross(ray.direction, Sub(v2, v0)))
  }

  predicate NearParallel(det: real) {
    -Epsilon < det < Epsilon
  }

  /** The point `v0 + u * (v1 - v0) + v * (v2 - v0)` of the triangle's plane. */
  function PlanePoint(v0: Vec3, v1: Vec3, v2: Vec3, u: real, v: real): Vec3 {
    Add(v0, Add(Scale(Sub(v1, v0), u), Scale(Sub(v2, v0), v)))
  }

  /** The ray meets the triangle at distance `t`, at barycentric `(u, v)`. */
  predicate MeetsAt(v0: Vec3, v1: Vec3, v2: Vec3, ray: Ray, b: Barycentric) {
    && b.t >= 0.0
    && b.u >= 0.0 && b.v >= 0.0 && b.u + b.v <= 1.0
    && At(ray, b.t) == PlanePoint(v0, v1, v2, b.u, b.v)
  }

  /** The per-triangle test as written: a determinant that is nearly zero, a
      `u` outside [0, 1], a negative `v`, `u + v` above 1 and a negative `t`
      are each a miss. The quantities are those of `Solution` below. */
  function RayTriangle(v0: Vec3, v1: Vec3, v2: Vec3, ray: Ray): (r: Option<Barycentric>)
    ensures r.Some? ==> r.value.t >= 0.0 && r.value.u >= 0.0 && r.value.v >= 0.0 && r.value.u + r.value.v <= 1.0
  {
    if NearParallel(Determinant(v0, v1, v2, ray)) then None
    else Accept(Solution(v0, v1, v2, ray))
  }

  /** The three rejections after the determinant, in the order they are made. */
  function Accept(s: Barycentric): Option<Barycentric> {
    if s.u < 0.0 || s.u > 1.0 then None
    else if s.v < 0.0 || s.u + s.v > 1.0 then None
    else if s.t < 0.0 then None
    else Some(s)
  }

  /** `u`, `v` and `t` of a non-parallel ray: with `T = start - v0`, `P = D x E2`,
      `Q = T x E1`, they are `(T . P) / det`, `(D . Q) / det` and `(E2 . Q) / det`. */
  function Solution(v0: Vec3, v1: Vec3, v2: Vec3, ray: Ray): Barycentric
    requires Determinant(v0, v1, v2, ray) != 0.0
  {
    var edge1 := Sub(v1, v0);
    var edge2 := Sub(v2, v0);
    var pvec := Cross(ray.direction, edge2);
    var invDet := 1.0 / Dot(edge1, pvec);
    var tvec := Sub(ray.start, v0);
    var qvec := Cross(tvec, edge1);
    Barycentric(Dot(edge2, qvec) * invDet, Dot(tvec, pvec) * invDet, Dot(ray.direction, qvec) * invDet)
  }

  // The algebra behind the test: scalar triple products and Cramer's rule.
  // Writing T for `start - v0`, D for the direction and E1, E2 for the edges,
  // the determinant is `Triple(E1, D, E2)`.

  /** `a . (b x c)`: the scalar triple product. */
  function Triple(a: Vec3, b: Vec3, c: Vec3): real {
    Dot(a, Cross(b, c))
  }

  lemma TripleRepeatFirst(a: Vec3, b: Vec3)
    ensures Triple(a, a, b) == 0.0
  {
  }

  lemma TripleRepeatLast(a: Vec3, b: Vec3)
    ensures Triple(b, a, b) == 0.0
  {
  }

  lemma TripleSwapOuter(a: Vec3, b: Vec3, c: Vec3)
    ensures Triple(c, b, a) == -Triple(a, b, c)
  {
  }

  lemma TripleSwapFront(a: Vec3, b: Vec3, c: Vec3)
    ensures Triple(b, a, c) == -Triple(a, b, c)
  {
  }

  lemma TripleRotate(a: Vec3, b: Vec3, c: Vec3)
    ensures Triple(a, b, c) == Triple(c, a, b)
  {
  }

  /** Cramer's rule before the division, one coordinate at a time:
      `det * T + (E2 . Q) * D == (T . P) * E1 + (D . Q) * E2` with `P = D x E2`, `Q = T x E1`. */
  lemma CramerX(tv: Vec3, d: Vec3, e1: Vec3, e2: Vec3)
    ensures Triple(e1, d, e2) * tv.x + Dot(e2, Cross(tv, e1)) * d.x
         == Dot(tv, Cross(d, e2)) * e1.x + Dot(d, Cross(tv, e1)) * e2.x
  {
  }

  lemma CramerY(tv: Vec3, d: Vec3, e1: Vec3, e2: Vec3)
    ensures Triple(e1, d, e2) * tv.y + Dot(e2, Cross(tv, e1)) * d.y
         == Dot(tv, Cross(d, e2)) * e1.y + Dot(d, Cross(tv, e1)) * e2.y
  {
  }

  lemma CramerZ(tv: Vec3, d: Vec3, e1: Vec3, e2: Vec3)
    ensures Triple(e1, d, e2) * tv.z + Dot(e2, Cross(tv, e1)) * d.z
         == Dot(tv, Cross(d, e2)) * e1.z + Dot(d, Cross(tv, e1)) * e2.z
  {
  }

  lemma ScaleEquation(det: real, k: real, a: real, b: real, c: real, e: real, x: real, y: real, z: real)
    requires det * k == 1.0
    requires det * a + x * b == y * c + z * e
    ensures a + b * (x * k) == c * (y * k) + e * (z * k)
  {
    calc {
      a + b * (x * k);
      (det * a + x * b) * k;
      (y * c + z * e) * k;
      c * (y * k) + e * (z * k);
    }
  }

  lemma CramerSolvesX(tv: Vec3, d: Vec3, e1: Vec3, e2: Vec3, t: real, u: real, v: real)
    requires Triple(e1, d, e2) != 0.0
    requires t == Dot(e2, Cross(tv, e1)) * (1.0 / Triple(e1, d, e2))
    requires u == Dot(tv, Cross(d, e2)) * (1.0 / Triple(e1, d, e2))
    requires v == Dot(d, Cross(tv, e1)) * (1.0 / Triple(e1, d, e2))
    ensures tv.x + d.x * t == e1.x * u + e2.x * v
  {
    var det := Triple(e1, d, e2);
    CramerX(tv, d, e1, e2);
    ScaleEquation(det, 1.0 / det, tv.x, d.x, e1.x, e2.x,
                  Dot(e2, Cross(tv, e1)), Dot(tv, Cross(d, e2)), Dot(d, Cross(tv, e1)));
  }

  lemma CramerSolvesY(tv: Vec3, d: Vec3, e1: Vec3, e2: Vec3, t: real, u: real, v: real)
    requires Triple(e1, d, e2) != 0.0
    requires t == Dot(e2, Cross(tv, e1)) * (1.0 / Triple(e1, d, e2))
    requires u == Dot(tv, Cross(d, e2)) * (1.0 / Triple(e1, d, e2))
    requires v == Dot(d, Cross(tv, e1)) * (1.0 / Triple(e1, d, e2))
    ensures tv.y + d.y * t == e1.y * u + e2.y * v
  {
    var det := Triple(e1, d, e2);
    CramerY(tv, d, e1, e2);
    ScaleEquation(det, 1.0 / det, tv.y, d.y, e1.y, e2.y,
                  Dot(e2, Cross(tv, e1)), Dot(tv, Cross(d, e2)), Dot(d, Cross(tv, e1)));
  }

  lemma CramerSolvesZ(tv: Vec3, d: Vec3, e1: Vec3, e2: Vec3, t: real, u: real, v: real)
    requires Triple(e1, d, e2) != 0.0
    requires t == Dot(e2, Cross(tv, e1)) * (1.0 / Triple(e1, d, e2))
    requires u == Dot(tv, Cross(d, e2)) * (1.0 / Triple(e1, d, e2))
    requires v == Dot(d, Cross(tv, e1)) * (1.0 / Triple(e1, d, e2))
    ensures tv.z + d.z * t == e1.z * u + e2.z * v
  {
    var det := Triple(e1, d, e2);
    CramerZ(tv, d, e1, e2);
    ScaleEquation(det, 1.0 / det, tv.z, d.z, e1.z, e2.z,
                  Dot(e2, Cross(tv, e1)), Dot(tv, Cross(d, e2)), Dot(d, Cross(tv, e1)));
  }

  /** The `(t, u, v)` the test computes solve `T + t * D == u * E1 + v * E2`. */
  lemma CramerSolves(tv: Vec3, d: Vec3, e1: Vec3, e2: Vec3, t: real, u: real, v: real)
    requires Triple(e1, d, e2) != 0.0
    requires t == Dot(e2, Cross(tv, e1)) * (1.0 / Triple(e1, d, e2))
    requires u == Dot(tv, Cross(d, e2)) * (1.0 / Triple(e1, d, e2))
    requires v == Dot(d, Cross(tv, e1)) * (1.0 / Triple(e1, d, e2))
    ensures Add(tv, Scale(d, t)) == Add(Scale(e1, u), Scale(e2, v))
  {
    CramerSolvesX(tv, d, e1, e2, t, u, v);
    CramerSolvesY(tv, d, e1, e2, t, u, v);
    CramerSolvesZ(tv, d, e1, e2, t, u, v);
  }

  lemma DotAffine(a: Vec3, b: Vec3, t: real, w: Vec3)
    ensures Dot(Add(a, Scale(b, t)), w) == Dot(a, w) + t * Dot(b, w)
  {
  }

  lemma DotCombination(a: Vec3, b: Vec3, u: real, v: real, w: Vec3)
    ensures Dot(Add(Scale(a, u), Scale(b, v)), w) == u * Dot(a, w) + v * Dot(b, w)
  {
  }

  /** Dotting both sides of `T + t * D == u * E1 + v * E2` with `w`. */
  lemma DotLinear(tv: Vec3, d: Vec3, e1: Vec3, e2: Vec3, t: real, u: real, v: real, w: Vec3)
    requires Add(tv, Scale(d, t)) == Add(Scale(e1, u), Scale(e2, v))
    ensures Dot(tv, w) + t * Dot(d, w) == u * Dot(e1, w) + v * Dot(e2, w)
  {
    DotAffine(tv, d, t, w);
    DotCombination(e1, e2, u, v, w);
  }

  // Any solution of the system satisfies the equations the test divides out.

  lemma RecoverU(tv: Vec3, d: Vec3, e1: Vec3, e2: Vec3, t: real, u: real, v: real)
    requires Add(tv, Scale(d, t)) == Add(Scale(e1, u), Scale(e2, v))
    ensures u * Triple(e1, d, e2) == Dot(tv, Cross(d, e2))
  {
    DotLinear(tv, d, e1, e2, t, u, v, Cross(d, e2));
    TripleRepeatFirst(d, e2);
    TripleRepeatLast(d, e2);
  }

  lemma RecoverV(tv: Vec3, d: Vec3, e1: Vec3, e2: Vec3, t: real, u: real, v: real)
    requires Add(tv, Scale(d, t)) == Add(Scale(e1, u), Scale(e2, v))
    ensures v * Triple(e1, d, e2) == Dot(d, Cross(tv, e1))
  {
    DotLinear(tv, d, e1, e2, t, u, v, Cross(d, e1));
    TripleRepeatFirst(d, e1);
    TripleRepeatLast(d, e1);
    TripleSwapOuter(e1, d, e2);
    TripleSwapFront(d, tv, e1);
  }

  lemma RecoverT(tv: Vec3, d: Vec3, e1: Vec3, e2: Vec3, t: real, u: real, v: real)
    requires Add(tv, Scale(d, t)) == Add(Scale(e1, u), Scale(e2, v))
    ensures t * Triple(e1, d, e2) == Dot(e2, Cross(tv, e1))
  {
    DotLinear(tv, d, e1, e2, t, u, v, Cross(e1, e2));
    TripleRepeatFirst(e1, e2);
    TripleRepeatLast(e1, e2);
    TripleSwapFront(e1, d, e2);
    TripleRotate(tv, e1, e2);
  }

  /** From `x * det == y` with `det` non-zero, `x == y * (1 / det)`. */
  lemma SolveFor(x: real, det: real, y: real)
    requires det != 0.0 && x * det == y
    ensures x == y * (1.0 / det)
  {
  }

  /** A hit reported by the test is a genuine intersection, with a
      determinant away from zero. */
  lemma RayTriangleSound(v0: Vec3, v1: Vec3, v2: Vec3, ray: Ray)
    ensures RayTriangle(v0, v1, v2, ray).Some? ==>
              && !NearParallel(Determinant(v0, v1, v2, ray))
              && MeetsAt(v0, v1, v2, ray, RayTriangle(v0, v1, v2, ray).value)
  {
    if !NearParallel(Determinant(v0, v1, v2, ray)) {
      var s := Solution(v0, v1, v2, ray);
      var tv, e1, e2 := Sub(ray.start, v0), Sub(v1, v0), Sub(v2, v0);
      CramerSolves(tv, ray.direction, e1, e2, s.t, s.u, s.v);
    }
  }

  /** A point of the plane reached along the ray solves `T + t * D == u * E1 + v * E2`. */
  lemma MeetsAtSolves(v0: Vec3, v1: Vec3, v2: Vec3, ray: Ray, b: Barycentric)
    requires At(ray, b.t) == PlanePoint(v0, v1, v2, b.u, b.v)
    ensures Add(Sub(ray.start, v0), Scale(ray.direction, b.t))
         == Add(Scale(Sub(v1, v0), b.u), Scale(Sub(v2, v0), b.v))
  {
  }

  /** With a non-zero determinant that system has one solution: the test's. */
  lemma SolutionUnique(v0: Vec3, v1: Vec3, v2: Vec3, ray: Ray, b: Barycentric)
    requires Determinant(v0, v1, v2, ray) != 0.0
    requires At(ray, b.t) == PlanePoint(v0, v1, v2, b.u, b.v)
    ensures Solution(v0, v1, v2, ray) == b
  {
    var tv, d, e1, e2 := Sub(ray.start, v0), ray.direction, Sub(v1, v0), Sub(v2, v0);
    var det := Triple(e1, d, e2);
    MeetsAtSolves(v0, v1, v2, ray, b);
    RecoverT(tv, d, e1, e2, b.t, b.u, b.v);
    RecoverU(tv, d, e1, e2, b.t, b.u, b.v);
    RecoverV(tv, d, e1, e2, b.t, b.u, b.v);
    SolveFor(b.t, det, Dot(e2, Cross(tv, e1)));
    SolveFor(b.u, det, Dot(tv, Cross(d, e2)));
    SolveFor(b.v, det, Dot(d, Cross(tv, e1)));
  }

  /** A genuine intersection whose determinant is away from zero is reported
      by the test, with the same distance and barycentric coordinates. */
  lemma RayTriangleComplete(v0: Vec3, v1: Vec3, v2: Vec3, ray: Ray, b: Barycentric)
    requires !NearParallel(Determinant(v0, v1, v2, ray))
    requires MeetsAt(v0, v1, v2, ray, b)
    ensures RayTriangle(v0, v1, v2, ray) == Some(b)
  {
    SolutionUnique(v0, v1, v2, ray, b);
  }

  /** No point of the triangle lies ahead on the ray. */
  ghost predicate Misses(v0: Vec3, v1: Vec3, v2: Vec3, ray: Ray) {
    forall b :: !MeetsAt(v0, v1, v2, ray, b)
  }

  /** A miss away from the near-parallel band is a genuine miss. */
  lemma RayTriangleMissIsReal(v0: Vec3, v1: Vec3, v2: Vec3, ray: Ray)
    ensures RayTriangle(v0, v1, v2, ray).None? && !NearParallel(Determinant(v0, v1, v2, ray)) ==>
              Misses(v0, v1, v2, ray)
  {
    if !NearParallel(Determinant(v0, v1, v2, ray)) {
      forall b | MeetsAt(v0, v1, v2, ray, b) ensures RayTriangle(v0, v1, v2, ray) == Some(b) {
        RayTriangleComplete(v0, v1, v2, ray, b);
      }
    }
  }

  /** The test is exact: it reports `(t, u, v)` exactly when the determinant is
      away from zero and the ray meets the triangle there. */
  lemma RayTriangleExact(v0: Vec3, v1: Vec3, v2: Vec3, ray: Ray, b: Barycentric)
    ensures RayTriangle(v0, v1, v2, ray) == Some(b) <==>
              !NearParallel(Determinant(v0, v1, v2, ray)) && MeetsAt(v0, v1, v2, ray, b)
  {
    RayTriangleSound(v0, v1, v2, ray);
    if !NearParallel(Determinant(v0, v1, v2, ray)) && MeetsAt(v0, v1, v2, ray, b) {
      RayTriangleComplete(v0, v1, v2, ray, b);
    }
  }

  // ---------------------------------------------------------------- nearest hit

  /** A hit: distance, interpolated normal, texture coordinate and colour. */
  datatype Hit = Hit(t: real, normal: Vec3, tc: Vec2, color: Vec4)

  /** One step of the scan: a hit replaces the best so far only when there
      is none yet or it is strictly nearer. */
  function Closer(best: Option<Hit>, h: Option<Hit>): Option<Hit> {
    if h.Some? && (best.None? || h.value.t < best.value.t) then h else best
  }

  /** The result of scanning `hs` in order with `Closer`, starting from no hit. */
  function Nearest(hs: seq<Option<Hit>>): Option<Hit>
    decreases |hs|
  {
    if hs == [] then None else Closer(Nearest(hs[..|hs| - 1]), hs[|hs| - 1])
  }

  /** `hs[k]` is a hit, no hit in `hs` is nearer, and every earlier hit is
      strictly farther. */
  ghost predicate FirstNearest(hs: seq<Option<Hit>>, k: int) {
    && 0 <= k < |hs| && hs[k].Some?
    && (forall j :: 0 <= j < |hs| && hs[j].Some? ==> hs[k].value.t <= hs[j].value.t)
    && (forall j :: 0 <= j < k && hs[j].Some? ==> hs[k].value.t < hs[j].value.t)
  }

  /** The scan reports no hit exactly when no triangle is hit, and otherwise
      the first of the nearest hits, with that triangle's attributes. */
  lemma {:induction false} NearestIsFirstMinimum(hs: seq<Option<Hit>>)
    ensures Nearest(hs).None? <==> forall j :: 0 <= j < |hs| ==> hs[j].None?
    ensures Nearest(hs).Some? ==> exists k :: FirstNearest(hs, k) && hs[k] == Nearest(hs)
    decreases |hs|
  {
    if hs != [] {
      var n := |hs| - 1;
      var front := hs[..n];
      NearestIsFirstMinimum(front);
      assert forall j :: 0 <= j < n ==> hs[j] == front[j];
      var best := Nearest(front);
      if hs[n].Some? && (best.None? || hs[n].value.t < best.value.t) {
        if best.Some? {
          var k :| FirstNearest(front, k) && front[k] == best;
        }
        assert FirstNearest(hs, n);
      } else if best.Some? {
        var k :| FirstNearest(front, k) && front[k] == best;
        assert FirstNearest(hs, k);
      }
    }
  }
}
