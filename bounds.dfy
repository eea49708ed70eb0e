/** The mesh's axis-aligned bounding box, the scale-and-bias map applied to
    points and boxes, the unit-cube fit and the slab test of a ray against a box. */
module Bounds {
  import opened Vectors

  /** `m_Bounds[0]` (lo) and `m_Bounds[1]` (hi). */
  datatype Box = Box(lo: Vec3, hi: Vec3)

  /** Every corner coordinate of lo at most the matching one of hi. */
  predicate Proper(b: Box) {
    b.lo.x <= b.hi.x && b.lo.y <= b.hi.y && b.lo.z <= b.hi.z
  }

  predicate Contains(b: Box, v: Vec3) {
    b.lo.x <= v.x <= b.hi.x && b.lo.y <= v.y <= b.hi.y && b.lo.z <= v.z <= b.hi.z
  }

  /** Each of the six bound coordinates is the coordinate of some point of `vs`. */
  ghost predicate Attained(b: Box, vs: seq<Vec3>) {
    && (exists i :: 0 <= i < |vs| && vs[i].x == b.lo.x)
    && (exists i :: 0 <= i < |vs| && vs[i].y == b.lo.y)
    && (exists i :: 0 <= i < |vs| && vs[i].z == b.lo.z)
    && (exists i :: 0 <= i < |vs| && vs[i].x == b.hi.x)
    && (exists i :: 0 <= i < |vs| && vs[i].y == b.hi.y)
    && (exists i :: 0 <= i < |vs| && vs[i].z == b.hi.z)
  }

  /** One step of the running min/max: each coordinate is replaced only on a
      strict comparison. */
  function Extend(b: Box, v: Vec3): Box {
    Box(Vec3(Lower(v.x, b.lo.x), Lower(v.y, b.lo.y), Lower(v.z, b.lo.z)),
        Vec3(Higher(v.x, b.hi.x), Higher(v.y, b.hi.y), Higher(v.z, b.hi.z)))
  }

  /** `a` when it is strictly below `b`, otherwise `b`. */
  function Lower(a: real, b: real): real {
    if a < b then a else b
  }

  /** `a` when it is strictly above `b`, otherwise `b`. */
  function Higher(a: real, b: real): real {
    if a > b then a else b
  }

  /** The box the running min/max over `vs` ends with, starting from the
      degenerate box at `vs[0]`. */
  function Aabb(vs: seq<Vec3>): Box
    requires vs != []
    decreases |vs|
  {
    if |vs| == 1 then Box(vs[0], vs[0]) else Extend(Aabb(vs[..|vs| - 1]), vs[|vs| - 1])
  }

  /** The running min/max is the tightest box: it contains every point, and
      every one of its coordinates is attained by a point. */
  lemma {:induction false} AabbIsTight(vs: seq<Vec3>)
    requires vs != []
    ensures Proper(Aabb(vs))
    ensures forall i :: 0 <= i < |vs| ==> Contains(Aabb(vs), vs[i])
    ensures Attained(Aabb(vs), vs)
    decreases |vs|
  {
    if |vs| == 1 {
      assert vs[0].x == Aabb(vs).lo.x;
    } else {
      var n := |vs| - 1;
      var front := vs[..n];
      AabbIsTight(front);
      var b := Aabb(front);
      var b' := Aabb(vs);
      assert b' == Extend(b, vs[n]);
      forall i | 0 <= i < |vs| ensures Contains(b', vs[i]) {
        if i < n { assert vs[i] == front[i]; }
      }
      assert forall i :: 0 <= i < n ==> vs[i] == front[i];
      assert vs[n] == vs[n];
    }
  }

  /** The running min/max over the two corners of a box computed by `Aabb`
      gives that box back. */
  lemma AabbOfAabbCorners(vs: seq<Vec3>)
    requires vs != []
    ensures Aabb([Aabb(vs).lo, Aabb(vs).hi]) == Aabb(vs)
  {
    AabbIsTight(vs);
  }

  // ---------------------------------------------------------------- scale and bias

  /** `v * scale + translation`, component-wise. */
  function ScaleBiasPoint(v: Vec3, scale: Vec3, translation: Vec3): Vec3 {
    Vec3(Affine(v.x, scale.x, translation.x), Affine(v.y, scale.y, translation.y), Affine(v.z, scale.z, translation.z))
  }

  function Affine(a: real, s: real, t: real): real {
    a * s + t
  }

  /** Both corners mapped by the same scale and bias. */
  function ScaleBiasBox(b: Box, scale: Vec3, translation: Vec3): Box {
    Box(ScaleBiasPoint(b.lo, scale, translation), ScaleBiasPoint(b.hi, scale, translation))
  }

  /** Every point mapped by the same scale and bias, in order. */
  function ScaleBiasAll(vs: seq<Vec3>, scale: Vec3, translation: Vec3): seq<Vec3> {
    seq(|vs|, i requires 0 <= i < |vs| => ScaleBiasPoint(vs[i], scale, translation))
  }

  predicate NonNegative(s: Vec3) {
    s.x >= 0.0 && s.y >= 0.0 && s.z >= 0.0
  }

  /** With a non-negative factor, min and max commute with `a * s + t`. */
  lemma MinMaxScaleBias(a: real, b: real, s: real, t: real)
    requires s >= 0.0
    ensures Affine(Lower(a, b), s, t) == Lower(Affine(a, s, t), Affine(b, s, t))
    ensures Affine(Higher(a, b), s, t) == Higher(Affine(a, s, t), Affine(b, s, t))
  {
    if a <= b {
      AffineMonotone(a, b, s, t);
    } else {
      AffineMonotone(b, a, s, t);
    }
  }

  /** A non-negative factor keeps the order of two values. */
  lemma AffineMonotone(a: real, b: real, s: real, t: real)
    requires a <= b && s >= 0.0
    ensures Affine(a, s, t) <= Affine(b, s, t)
  {
    assert (b - a) * s >= 0.0;
    assert b * s - a * s == (b - a) * s;
  }

  lemma ExtendScaleBias(b: Box, v: Vec3, scale: Vec3, translation: Vec3)
    requires NonNegative(scale)
    ensures Extend(ScaleBiasBox(b, scale, translation), ScaleBiasPoint(v, scale, translation))
         == ScaleBiasBox(Extend(b, v), scale, translation)
  {
    var mapped := Extend(ScaleBiasBox(b, scale, translation), ScaleBiasPoint(v, scale, translation));
    var extended := ScaleBiasBox(Extend(b, v), scale, translation);
    assert mapped.lo.x == extended.lo.x by { MinMaxScaleBias(v.x, b.lo.x, scale.x, translation.x); }
    assert mapped.lo.y == extended.lo.y by { MinMaxScaleBias(v.y, b.lo.y, scale.y, translation.y); }
    assert mapped.lo.z == extended.lo.z by { MinMaxScaleBias(v.z, b.lo.z, scale.z, translation.z); }
    assert mapped.hi.x == extended.hi.x by { MinMaxScaleBias(v.x, b.hi.x, scale.x, translation.x); }
    assert mapped.hi.y == extended.hi.y by { MinMaxScaleBias(v.y, b.hi.y, scale.y, translation.y); }
    assert mapped.hi.z == extended.hi.z by { MinMaxScaleBias(v.z, b.hi.z, scale.z, translation.z); }
  }

  /** Mapping the stored bounds instead of recomputing them is exact when no
      scale component is negative: the mapped box is the box of the mapped points. */
  lemma {:induction false} ScaleBiasAabb(vs: seq<Vec3>, scale: Vec3, translation: Vec3)
    requires vs != []
    requires NonNegative(scale)
    ensures Aabb(ScaleBiasAll(vs, scale, translation)) == ScaleBiasBox(Aabb(vs), scale, translation)
    decreases |vs|
  {
    var ws := ScaleBiasAll(vs, scale, translation);
    if |vs| > 1 {
      var n := |vs| - 1;
      assert ws[..n] == ScaleBiasAll(vs[..n], scale, translation);
      ScaleBiasAabb(vs[..n], scale, translation);
      ExtendScaleBias(Aabb(vs[..n]), vs[n], scale, translation);
    }
  }

  /** A negative scale component on an axis where the box has positive
      thickness swaps the mapped corners on that axis, so the mapped box is no
      longer proper. */
  lemma NegativeScaleSwapsCorners(b: Box, scale: Vec3, translation: Vec3)
    requires || (b.lo.x < b.hi.x && scale.x < 0.0)
             || (b.lo.y < b.hi.y && scale.y < 0.0)
             || (b.lo.z < b.hi.z && scale.z < 0.0)
    ensures !Proper(ScaleBiasBox(b, scale, translation))
  {
    if b.lo.x < b.hi.x && scale.x < 0.0 {
      AffineAntitone(b.lo.x, b.hi.x, scale.x, translation.x);
    } else if b.lo.y < b.hi.y && scale.y < 0.0 {
      AffineAntitone(b.lo.y, b.hi.y, scale.y, translation.y);
    } else {
      AffineAntitone(b.lo.z, b.hi.z, scale.z, translation.z);
    }
  }

  /** A negative factor reverses the strict order of two values. */
  lemma AffineAntitone(lo: real, hi: real, k: real, t: real)
    requires lo < hi && k < 0.0
    ensures Affine(lo, k, t) > Affine(hi, k, t)
  {
    assert (lo - hi) * k > 0.0;
    assert lo * k - hi * k == (lo - hi) * k;
  }

  // ---------------------------------------------------------------- unit cube

  function Extents(b: Box): Vec3 {
    Sub(b.hi, b.lo)
  }

  /** The largest of the three extents, chosen by the nested strict comparisons
      of the source. */
  function MaxExtent(b: Box): (e: real)
    ensures e >= Extents(b).x && e >= Extents(b).y && e >= Extents(b).z
    ensures e == Extents(b).x || e == Extents(b).y || e == Extents(b).z
  {
    var d := Extents(b);
    if d.x > d.y then (if d.x > d.z then d.x else d.z)
    else (if d.y > d.z then d.y else d.z)
  }

  function Center(b: Box): Vec3 {
    Vec3((b.lo.x + b.hi.x) / 2.0, (b.lo.y + b.hi.y) / 2.0, (b.lo.z + b.hi.z) / 2.0)
  }

  datatype ScaleBias = ScaleBias(scale: Vec3, translation: Vec3)

  /** The uniform scale and centring translation that fit `b` into the unit cube;
      the identity when the mesh has no vertices. */
  function UnitCubeScale(hasVertices: bool, b: Box): (r: ScaleBias)
    requires hasVertices ==> MaxExtent(b) > 0.0
    ensures r.scale.x == r.scale.y == r.scale.z > 0.0
  {
    if !hasVertices then ScaleBias(One3, Zero3)
    else
      var e := MaxExtent(b);
      ScaleBias(Vec3(1.0 / e, 1.0 / e, 1.0 / e),
                Vec3(-((b.hi.x + b.lo.x) / (2.0 * e)),
                     -((b.hi.y + b.lo.y) / (2.0 * e)),
                     -((b.hi.z + b.lo.z) / (2.0 * e))))
  }

  /** The identity scale and bias maps every box onto itself. */
  lemma UnitCubeScaleEmpty(b: Box)
    ensures ScaleBiasBox(b, UnitCubeScale(false, b).scale, UnitCubeScale(false, b).translation) == b
  {
  }

  /** One axis of the unit-cube map: the extent is divided by `e` and the
      midpoint goes to 0. */
  lemma UnitAxis(lo: real, hi: real, e: real)
    requires e > 0.0
    ensures var c := -((hi + lo) / (2.0 * e));
            && Affine(hi, 1.0 / e, c) - Affine(lo, 1.0 / e, c) == (hi - lo) / e
            && (Affine(lo, 1.0 / e, c) + Affine(hi, 1.0 / e, c)) / 2.0 == 0.0
  {
    var s := 1.0 / e;
    assert lo * s + hi * s == (hi + lo) / e;
    assert (hi + lo) / e == 2.0 * ((hi + lo) / (2.0 * e));
    assert hi * s - lo * s == (hi - lo) / e;
  }

  /** A non-empty box mapped by the unit-cube scale is centred on the origin
      and its longest extent is exactly 1. */
  lemma UnitCubeFits(b: Box)
    requires MaxExtent(b) > 0.0
    ensures var sb := UnitCubeScale(true, b);
            var b' := ScaleBiasBox(b, sb.scale, sb.translation);
            Center(b') == Zero3 && MaxExtent(b') == 1.0
  {
    var e := MaxExtent(b);
    var sb := UnitCubeScale(true, b);
    var b' := ScaleBiasBox(b, sb.scale, sb.translation);
    var d := Extents(b);
    UnitAxis(b.lo.x, b.hi.x, e);
    UnitAxis(b.lo.y, b.hi.y, e);
    UnitAxis(b.lo.z, b.hi.z, e);
    assert Center(b') == Zero3;
    DivideMax(d, e, b');
  }

  /** A box whose extents are three extents divided by their maximum has a
      maximum extent of 1. */
  lemma DivideMax(d: Vec3, e: real, b: Box)
    requires e > 0.0
    requires e >= d.x && e >= d.y && e >= d.z
    requires e == d.x || e == d.y || e == d.z
    requires Extents(b) == Vec3(d.x / e, d.y / e, d.z / e)
    ensures MaxExtent(b) == 1.0
  {
    var q := Extents(b);
    assert q.x <= 1.0 && q.y <= 1.0 && q.z <= 1.0;
    assert q.x == 1.0 || q.y == 1.0 || q.z == 1.0;
  }

  // ---------------------------------------------------------------- slab test

  predicate NonZero(v: Vec3) {
    v.x != 0.0 && v.y != 0.0 && v.z != 0.0
  }

  /** The outcome of the slab test and the final values of its two in/out
      distances. */
  datatype Slab = Slab(hit: bool, tmin: real, tmax: real)

  /** Entry and exit distances along one axis: the corner is chosen by the sign
      of the inverse direction component. */
  function AxisNear(lo: real, hi: real, start: real, inv: real): real {
    if inv < 0.0 then (hi - start) * inv else (lo - start) * inv
  }

  function AxisFar(lo: real, hi: real, start: real, inv: real): real {
    if inv < 0.0 then (lo - start) * inv else (hi - start) * inv
  }

  /** The slab test as written: the x and y intervals are compared and
      intersected, then the result against z; a hit needs a positive exit distance. */
  function SlabTest(b: Box, r: Ray): Slab
    requires NonZero(r.direction)
  {
    var inv := Vec3(1.0 / r.direction.x, 1.0 / r.direction.y, 1.0 / r.direction.z);
    SlabOverlap(AxisNear(b.lo.x, b.hi.x, r.start.x, inv.x), AxisFar(b.lo.x, b.hi.x, r.start.x, inv.x),
                AxisNear(b.lo.y, b.hi.y, r.start.y, inv.y), AxisFar(b.lo.y, b.hi.y, r.start.y, inv.y),
                AxisNear(b.lo.z, b.hi.z, r.start.z, inv.z), AxisFar(b.lo.z, b.hi.z, r.start.z, inv.z))
  }

  /** The comparisons and clipping of the slab test, given the per-axis
      entry and exit distances. */
  function SlabOverlap(tmin: real, tmax: real, tymin: real, tymax: real, tzmin: real, tzmax: real): Slab {
    if tmin > tymax || tymin > tmax then Slab(false, tmin, tmax)
    else
      var tmin1 := if tymin > tmin then tymin else tmin;
      var tmax1 := if tymax < tmax then tymax else tmax;
      if tmin1 > tzmax || tzmin > tmax1 then Slab(false, tmin1, tmax1)
      else
        var tmin2 := if tzmin > tmin1 then tzmin else tmin1;
        var tmax2 := if tzmax < tmax1 then tzmax else tmax1;
        Slab(tmax2 > 0.0, tmin2, tmax2)
  }

  /** For three proper intervals, the overlap test reports whether their
      common part reaches a positive distance, and on success returns exactly
      that common part. */
  lemma SlabOverlapCorrect(tmin: real, tmax: real, tymin: real, tymax: real, tzmin: real, tzmax: real)
    requires tmin <= tmax && tymin <= tymax && tzmin <= tzmax
    ensures var s := SlabOverlap(tmin, tmax, tymin, tymax, tzmin, tzmax);
            && (s.hit <==> exists t :: t > 0.0 && InAll(t, tmin, tmax, tymin, tymax, tzmin, tzmax))
            && (s.hit ==> forall t :: s.tmin <= t <= s.tmax <==> InAll(t, tmin, tmax, tymin, tymax, tzmin, tzmax))
  {
    var s := SlabOverlap(tmin, tmax, tymin, tymax, tzmin, tzmax);
    if s.hit {
      assert InAll(s.tmax, tmin, tmax, tymin, tymax, tzmin, tzmax);
    }
  }

  predicate InAll(t: real, tmin: real, tmax: real, tymin: real, tymax: real, tzmin: real, tzmax: real) {
    tmin <= t <= tmax && tymin <= t <= tymax && tzmin <= t <= tzmax
  }

  /** Comparing `a / d` with `t` is comparing `a` with `t * d`, the
      direction of the comparison flipping when `d` is negative. */
  lemma DivCompare(a: real, t: real, d: real)
    requires d != 0.0
    ensures d > 0.0 ==> (a * (1.0 / d) <= t <==> a <= t * d) && (t <= a * (1.0 / d) <==> t * d <= a)
    ensures d < 0.0 ==> (a * (1.0 / d) <= t <==> t * d <= a) && (t <= a * (1.0 / d) <==> a <= t * d)
  {
    var q := a * (1.0 / d);
    assert q * d == a;
    if d > 0.0 {
      MulMonotone(q, t, d);
      MulMonotone(t, q, d);
    } else {
      MulMonotone(q, t, -d);
      MulMonotone(t, q, -d);
    }
  }

  /** On one axis, the entry/exit interval is exactly the set of distances at
      which the ray is between the two planes. */
  lemma AxisInterval(lo: real, hi: real, start: real, d: real, t: real)
    requires d != 0.0 && lo <= hi
    ensures AxisNear(lo, hi, start, 1.0 / d) <= AxisFar(lo, hi, start, 1.0 / d)
    ensures AxisNear(lo, hi, start, 1.0 / d) <= t <= AxisFar(lo, hi, start, 1.0 / d)
        <==> lo <= start + d * t <= hi
  {
    var inv := 1.0 / d;
    var a, c := lo - start, hi - start;
    assert start + d * t == start + t * d;
    if d > 0.0 {
      assert inv > 0.0;
      DivCompare(a, t, d);
      DivCompare(c, t, d);
      MulMonotone(a, c, inv);
      assert AxisNear(lo, hi, start, inv) == a * inv;
      assert AxisFar(lo, hi, start, inv) == c * inv;
    } else {
      assert inv < 0.0;
      DivCompare(a, t, d);
      DivCompare(c, t, d);
      MulAntitone(a, c, inv);
      assert AxisNear(lo, hi, start, inv) == c * inv;
      assert AxisFar(lo, hi, start, inv) == a * inv;
    }
  }

  lemma MulAntitone(a: real, b: real, k: real)
    requires k < 0.0
    ensures a <= b <==> a * k >= b * k
  {
    if a <= b { assert (b - a) * k <= 0.0; }
    else { assert (a - b) * k < 0.0; }
  }

  lemma MulMonotone(a: real, b: real, k: real)
    requires k > 0.0
    ensures a <= b <==> a * k <= b * k
  {
    if a <= b { assert (b - a) * k >= 0.0; }
    else { assert (a - b) * k > 0.0; }
  }

  /** The per-axis entry and exit distances of `r` against `b`. */
  function Near(b: Box, r: Ray): Vec3
    requires NonZero(r.direction)
  {
    Vec3(AxisNear(b.lo.x, b.hi.x, r.start.x, 1.0 / r.direction.x),
         AxisNear(b.lo.y, b.hi.y, r.start.y, 1.0 / r.direction.y),
         AxisNear(b.lo.z, b.hi.z, r.start.z, 1.0 / r.direction.z))
  }

  function Far(b: Box, r: Ray): Vec3
    requires NonZero(r.direction)
  {
    Vec3(AxisFar(b.lo.x, b.hi.x, r.start.x, 1.0 / r.direction.x),
         AxisFar(b.lo.y, b.hi.y, r.start.y, 1.0 / r.direction.y),
         AxisFar(b.lo.z, b.hi.z, r.start.z, 1.0 / r.direction.z))
  }

  /** On each axis, the ray is between the box's two planes exactly at the
      distances of that axis's entry/exit interval, which is proper. */
  lemma ContainsAtX(b: Box, r: Ray, t: real)
    requires NonZero(r.direction) && Proper(b)
    ensures Near(b, r).x <= Far(b, r).x
    ensures b.lo.x <= At(r, t).x <= b.hi.x <==> Near(b, r).x <= t <= Far(b, r).x
  {
    assert At(r, t).x == r.start.x + r.direction.x * t;
    AxisInterval(b.lo.x, b.hi.x, r.start.x, r.direction.x, t);
  }

  lemma ContainsAtY(b: Box, r: Ray, t: real)
    requires NonZero(r.direction) && Proper(b)
    ensures Near(b, r).y <= Far(b, r).y
    ensures b.lo.y <= At(r, t).y <= b.hi.y <==> Near(b, r).y <= t <= Far(b, r).y
  {
    assert At(r, t).y == r.start.y + r.direction.y * t;
    AxisInterval(b.lo.y, b.hi.y, r.start.y, r.direction.y, t);
  }

  lemma ContainsAtZ(b: Box, r: Ray, t: real)
    requires NonZero(r.direction) && Proper(b)
    ensures Near(b, r).z <= Far(b, r).z
    ensures b.lo.z <= At(r, t).z <= b.hi.z <==> Near(b, r).z <= t <= Far(b, r).z
  {
    assert At(r, t).z == r.start.z + r.direction.z * t;
    AxisInterval(b.lo.z, b.hi.z, r.start.z, r.direction.z, t);
  }

  /** The point of the ray at distance `t` is in the box exactly when `t` is in
      all three per-axis intervals, and these intervals are proper. */
  lemma ContainsAt(b: Box, r: Ray, t: real)
    requires NonZero(r.direction) && Proper(b)
    ensures Proper(Box(Near(b, r), Far(b, r)))
    ensures Contains(b, At(r, t)) <==> Contains(Box(Near(b, r), Far(b, r)), Vec3(t, t, t))
  {
    ContainsAtX(b, r, t);
    ContainsAtY(b, r, t);
    ContainsAtZ(b, r, t);
  }

  /** For a proper box, the slab test reports a hit exactly when some point of
      the ray at a positive distance lies in the box; on a hit, its two
      distances bound exactly the part of the ray inside the box. */
  lemma SlabTestCorrect(b: Box, r: Ray)
    requires NonZero(r.direction) && Proper(b)
    ensures SlabTest(b, r).hit <==> exists t :: t > 0.0 && Contains(b, At(r, t))
    ensures SlabTest(b, r).hit ==>
              forall t :: SlabTest(b, r).tmin <= t <= SlabTest(b, r).tmax <==> Contains(b, At(r, t))
  {
    var n, f := Near(b, r), Far(b, r);
    assert SlabTest(b, r) == SlabOverlap(n.x, f.x, n.y, f.y, n.z, f.z);
    forall t ensures Contains(b, At(r, t)) <==> InAll(t, n.x, f.x, n.y, f.y, n.z, f.z) {
      ContainsAt(b, r, t);
    }
    ContainsAt(b, r, 0.0);
    SlabOverlapCorrect(n.x, f.x, n.y, f.y, n.z, f.z);
  }
}
