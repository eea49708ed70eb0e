/** Per-vertex normals of a triangle mesh: every triangle adds its face
    normal to its three corners, then every sum is rescaled to unit length. */
module Normals {
  import opened Vectors
  import opened Indices

  /** The face normal of triangle `(a, b, c)`: `(va - vc) x (va - vb)`. It is
      not normalized, so its length grows with the triangle's area. */
  function FaceNormal(vs: seq<Vec3>, a: nat, b: nat, c: nat): Vec3
    requires a < |vs| && b < |vs| && c < |vs|
  {
    var tang := Sub(vs[a], vs[b]);
    var bin := Sub(vs[a], vs[c]);
    Cross(bin, tang)
  }

  /** The face normal is the opposite of `(vb - va) x (vc - va)`, the face
      normal the ray test computes from the triangle's two edges. */
  lemma FaceNormalOpposesEdgeCross(vs: seq<Vec3>, a: nat, b: nat, c: nat)
    requires a < |vs| && b < |vs| && c < |vs|
    ensures FaceNormal(vs, a, b, c) == Scale(Cross(Sub(vs[b], vs[a]), Sub(vs[c], vs[a])), -1.0)
  {
  }

  /** How many of the corners `a`, `b`, `c` are vertex `j`. */
  function Corners(a: nat, b: nat, c: nat, j: nat): (n: nat)
    ensures n <= 3
    ensures n == 0 <==> (a != j && b != j && c != j)
  {
    (if a == j then 1 else 0) + (if b == j then 1 else 0) + (if c == j then 1 else 0)
  }

  /** Adds `f` to the normals of `a`, then `b`, then `c`, one after the other,
      so that a corner named twice receives `f` twice. */
  function AddFace(ns: seq<Vec3>, a: nat, b: nat, c: nat, f: Vec3): (r: seq<Vec3>)
    requires a < |ns| && b < |ns| && c < |ns|
    ensures |r| == |ns|
  {
    var n1 := ns[a := Add(ns[a], f)];
    var n2 := n1[b := Add(n1[b], f)];
    n2[c := Add(n2[c], f)]
  }

  /** Each normal gains `f` once per corner that names it. */
  lemma AddFaceAt(ns: seq<Vec3>, a: nat, b: nat, c: nat, f: Vec3, j: nat)
    requires a < |ns| && b < |ns| && c < |ns| && j < |ns|
    ensures AddFace(ns, a, b, c, f)[j] == Add(ns[j], Scale(f, Corners(a, b, c, j) as real))
  {
  }

  /** The triangle list `idx` has whole triangles whose corners are all vertices. */
  predicate WholeTriangles(vs: seq<Vec3>, idx: seq<nat>) {
    |idx| % 3 == 0 && AllBelow(idx, |vs|)
  }

  lemma TrianglesPrefix(vs: seq<Vec3>, idx: seq<nat>)
    requires WholeTriangles(vs, idx) && idx != []
    ensures |idx| >= 3 && WholeTriangles(vs, idx[..|idx| - 3]) && WholeTriangles(vs, idx[3..])
  {
    var n := |idx| - 3;
    assert forall j :: 0 <= j < n ==> idx[..n][j] == idx[j];
    assert forall j :: 0 <= j < n ==> idx[3..][j] == idx[j + 3];
  }

  /** The normal sums after the accumulation pass over the triangles of `idx`,
      in order, starting from all zero. */
  function FaceSums(vs: seq<Vec3>, idx: seq<nat>): (r: seq<Vec3>)
    requires WholeTriangles(vs, idx)
    ensures |r| == |vs|
    decreases |idx|
  {
    if idx == [] then seq(|vs|, _ => Zero3)
    else
      TrianglesPrefix(vs, idx);
      var n := |idx| - 3;
      AddFace(FaceSums(vs, idx[..n]), idx[n], idx[n + 1], idx[n + 2],
              FaceNormal(vs, idx[n], idx[n + 1], idx[n + 2]))
  }

  /** Reference definition, vertex by vertex: the face normal of every
      triangle, once per corner at `j`, summed from the first triangle on. */
  function VertexSum(vs: seq<Vec3>, idx: seq<nat>, j: nat): Vec3
    requires WholeTriangles(vs, idx)
    decreases |idx|
  {
    if idx == [] then Zero3
    else
      TrianglesPrefix(vs, idx);
      Add(Scale(FaceNormal(vs, idx[0], idx[1], idx[2]), Corners(idx[0], idx[1], idx[2], j) as real),
          VertexSum(vs, idx[3..], j))
  }

  /** Appending a triangle adds its share to the reference sum. */
  lemma {:induction false} VertexSumSnoc(vs: seq<Vec3>, idx: seq<nat>, j: nat)
    requires WholeTriangles(vs, idx) && |idx| >= 3 && WholeTriangles(vs, idx[..|idx| - 3])
    ensures var n := |idx| - 3;
            VertexSum(vs, idx, j) ==
              Add(VertexSum(vs, idx[..n], j),
                  Scale(FaceNormal(vs, idx[n], idx[n + 1], idx[n + 2]), Corners(idx[n], idx[n + 1], idx[n + 2], j) as real))
    decreases |idx|
  {
    TrianglesPrefix(vs, idx);
    var n := |idx| - 3;
    if n == 0 {
      assert idx[..n] == [];
      assert idx[3..] == [];
    } else {
      var rest := idx[3..];
      TrianglesPrefix(vs, rest);
      VertexSumSnoc(vs, rest, j);
      assert rest[..|rest| - 3] == idx[..n][3..];
      assert idx[..n][..3] == idx[..3];
      TrianglesPrefix(vs, idx[..n]);
    }
  }

  /** After the accumulation pass, the normal of vertex `j` is the sum of the
      face normals of the triangles that use it, counted once per corner. */
  lemma {:induction false} FaceSumsAt(vs: seq<Vec3>, idx: seq<nat>, j: nat)
    requires WholeTriangles(vs, idx) && j < |vs|
    ensures FaceSums(vs, idx)[j] == VertexSum(vs, idx, j)
    decreases |idx|
  {
    if idx != [] {
      TrianglesPrefix(vs, idx);
      var n := |idx| - 3;
      FaceSumsAt(vs, idx[..n], j);
      AddFaceAt(FaceSums(vs, idx[..n]), idx[n], idx[n + 1], idx[n + 2],
                FaceNormal(vs, idx[n], idx[n + 1], idx[n + 2]), j);
      VertexSumSnoc(vs, idx, j);
    }
  }

  /** A vertex that no triangle uses keeps a zero normal sum. */
  lemma {:induction false} UnusedVertexSumIsZero(vs: seq<Vec3>, idx: seq<nat>, j: nat)
    requires WholeTriangles(vs, idx)
    requires forall k :: 0 <= k < |idx| ==> idx[k] != j
    ensures VertexSum(vs, idx, j) == Zero3
    decreases |idx|
  {
    if idx != [] {
      TrianglesPrefix(vs, idx);
      assert forall k :: 0 <= k < |idx| - 3 ==> idx[3..][k] == idx[k + 3];
      UnusedVertexSumIsZero(vs, idx[3..], j);
      assert Corners(idx[0], idx[1], idx[2], j) == 0;
      assert Scale(FaceNormal(vs, idx[0], idx[1], idx[2]), 0.0) == Zero3;
    }
  }

  /** Every normal rescaled by `Normalized`, in order. */
  function NormalizeAll(length: LengthFn, ns: seq<Vec3>): seq<Vec3> {
    seq(|ns|, i requires 0 <= i < |ns| => Normalized(length, ns[i]))
  }

  /** The normals the recomputation produces: sums, then rescaled. */
  function VertexNormals(length: LengthFn, vs: seq<Vec3>, idx: seq<nat>): (r: seq<Vec3>)
    requires WholeTriangles(vs, idx)
    ensures |r| == |vs|
  {
    NormalizeAll(length, FaceSums(vs, idx))
  }

  /** `length` behaves as a norm does under positive scaling. */
  ghost predicate Homogeneous(length: LengthFn) {
    forall v: Vec3, s: real :: s > 0.0 ==> length(Scale(v, s)) == s * length(v)
  }

  /** With a homogeneous length, a vector of positive length is rescaled to
      length 1 and any other vector is left as it is. */
  lemma NormalizedIsUnit(length: LengthFn, v: Vec3)
    requires Homogeneous(length)
    ensures length(v) > 0.0 ==> length(Normalized(length, v)) == 1.0
    ensures length(v) <= 0.0 ==> Normalized(length, v) == v
  {
    var l := length(v);
    if l > 0.0 {
      assert Div(v, l) == Scale(v, 1.0 / l);
      assert length(Scale(v, 1.0 / l)) == (1.0 / l) * l;
    }
  }

  /** Each recomputed normal is the normalized sum of the face normals
      around its vertex. */
  lemma VertexNormalsAt(length: LengthFn, vs: seq<Vec3>, idx: seq<nat>, j: nat)
    requires WholeTriangles(vs, idx) && j < |vs|
    ensures VertexNormals(length, vs, idx)[j] == Normalized(length, VertexSum(vs, idx, j))
  {
    FaceSumsAt(vs, idx, j);
  }

  /** Rescaling leaves the zero vector as it is, whatever its length. */
  lemma NormalizedZero(length: LengthFn)
    ensures Normalized(length, Zero3) == Zero3
  {
    var l := length(Zero3);
    if l > 0.0 {
      assert 0.0 / l == 0.0;
    }
  }

  /** A vertex no triangle uses gets the zero normal. */
  lemma UnusedVertexNormalIsZero(length: LengthFn, vs: seq<Vec3>, idx: seq<nat>, j: nat)
    requires WholeTriangles(vs, idx) && j < |vs|
    requires forall k :: 0 <= k < |idx| ==> idx[k] != j
    ensures VertexNormals(length, vs, idx)[j] == Zero3
  {
    VertexNormalsAt(length, vs, idx, j);
    UnusedVertexSumIsZero(vs, idx, j);
    NormalizedZero(length);
  }

  /** With a homogeneous length every recomputed normal has length 1 or is a
      sum whose length is not positive, left unscaled. */
  lemma VertexNormalsUnit(length: LengthFn, vs: seq<Vec3>, idx: seq<nat>, j: nat)
    requires WholeTriangles(vs, idx) && j < |vs| && Homogeneous(length)
    ensures var s := FaceSums(vs, idx)[j];
            var n := VertexNormals(length, vs, idx)[j];
            (length(s) > 0.0 && length(n) == 1.0) || (length(s) <= 0.0 && n == s)
  {
    NormalizedIsUnit(length, FaceSums(vs, idx)[j]);
  }
}
