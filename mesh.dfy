/** The mesh object: vertex, normal, texture-coordinate and colour arrays
    with one index stream each, the bounding box it keeps, and the optional
    k-d tree built over its triangles. */
module Meshes {
  import opened Vectors
  import opened Indices
  import opened Bounds
  import opened Normals
  import opened Intersection

  datatype MeshType = Triangles | Lines

  /** The k-d tree is modelled by the geometry it was built from: a tree is up
      to date when it was built from the current vertices and index stream. */
  datatype KDTree = KDTree(vertices: seq<Vec3>, vertIndices: seq<nat>)

  /** The k-d tree's own ray query, which is not part of this model. */
  type TreeQuery = (KDTree, Ray, real, real) -> Option<Hit>

  /** Every entry of `idx` is below `count`; stops at the first that is not. */
  method IndicesBelow(idx: seq<nat>, count: nat) returns (ok: bool)
    ensures ok == AllBelow(idx, count)
  {
    var i := 0;
    while i < |idx|
      invariant 0 <= i <= |idx|
      invariant AllBelow(idx[..i], count)
    {
      if idx[i] >= count {
        return false;
      }
      assert idx[..i + 1] == idx[..i] + [idx[i]];
      i := i + 1;
    }
    assert idx[..i] == idx;
    return true;
  }

  class Mesh {
    var vertices: seq<Vec3>
    var normals: seq<Vec3>
    var texcoords: seq<Vec2>
    var colors: seq<Vec4>
    var vertIndices: seq<nat>
    var normalIndices: seq<nat>
    var tcIndices: seq<nat>
    var colIndices: seq<nat>
    var bounds: Box
    var kdTree: Option<KDTree>
    var defColor: Vec4
    var meshDesc: string
    var meshType: MeshType
    var verticesPerPoly: nat

    /** The stored box is the bounding box of the vertices (when there are any). */
    predicate BoundsCurrent()
      reads this
    {
      |vertices| > 0 ==> bounds == Aabb(vertices)
    }

    /** A tree, when there is one, was built from the current geometry. */
    predicate TreeCurrent()
      reads this
    {
      kdTree.Some? ==> kdTree.value == KDTree(vertices, vertIndices)
    }

    /** Each non-empty attribute index stream is as long as the vertex index stream. */
    predicate SizesMatch()
      reads this
    {
      && (|normalIndices| == 0 || |normalIndices| == |vertIndices|)
      && (|tcIndices| == 0 || |tcIndices| == |vertIndices|)
      && (|colIndices| == 0 || |colIndices| == |vertIndices|)
    }

    /** Every index selects an element of the array it indexes. */
    predicate IndicesInRange()
      reads this
    {
      && AllBelow(vertIndices, |vertices|)
      && AllBelow(normalIndices, |normals|)
      && AllBelow(tcIndices, |texcoords|)
      && AllBelow(colIndices, |colors|)
    }

    /** Everything the intersection code reads for the triangle starting at
      index `i` exists: its corners, the first two normal indices, its texture
      coordinates, and its colours, which are looked up through the
      texture-coordinate indices. */
    predicate TriangleReadable(i: nat)
      reads this
    {
      && i + 2 < |vertIndices|
      && vertIndices[i] < |vertices| && vertIndices[i + 1] < |vertices| && vertIndices[i + 2] < |vertices|
      && (|normalIndices| != 0 ==>
            i + 1 < |normalIndices| && normalIndices[i] < |normals| && normalIndices[i + 1] < |normals|)
      && (|tcIndices| != 0 ==>
            i + 2 < |tcIndices| && tcIndices[i] < |texcoords| && tcIndices[i + 1] < |texcoords|
            && tcIndices[i + 2] < |texcoords|)
      && (|colIndices| != 0 ==>
            i + 2 < |tcIndices| && tcIndices[i] < |colors| && tcIndices[i + 1] < |colors|
            && tcIndices[i + 2] < |colors|)
    }

    /** Every triangle of the index stream is readable. */
    predicate IntersectReady()
      reads this
    {
      forall i: nat :: i < |vertIndices| && i % 3 == 0 ==> TriangleReadable(i)
    }

    /** The default mesh: an empty triangle mesh. */
    constructor Default()
      ensures vertices == [] && normals == [] && texcoords == [] && colors == []
      ensures vertIndices == [] && normalIndices == [] && tcIndices == [] && colIndices == []
      ensures meshType == Triangles && verticesPerPoly == 3
      ensures defColor == Vec4(1.0, 1.0, 1.0, 1.0) && meshDesc == "Generic Triangle Mesh"
      ensures bounds == Box(Zero3, Zero3) && kdTree == None
    {
      vertices, normals, texcoords, colors := [], [], [], [];
      vertIndices, normalIndices, tcIndices, colIndices := [], [], [], [];
      bounds := Box(Zero3, Zero3);
      kdTree := None;
      defColor := Vec4(1.0, 1.0, 1.0, 1.0);
      meshDesc := "Generic Triangle Mesh";
      meshType := Triangles;
      verticesPerPoly := 3;
    }

    /** A mesh over the given arrays: its box is computed, then it is scaled
        into the unit cube and a tree is built when asked. */
    constructor (vs: seq<Vec3>, ns: seq<Vec3>, tcs: seq<Vec2>, cols: seq<Vec4>,
                 vIndices: seq<nat>, nIndices: seq<nat>, tIndices: seq<nat>, cIndices: seq<nat>,
                 buildKDTree: bool, scaleToUnitCube: bool, desc: string, mt: MeshType)
      requires scaleToUnitCube && vs != [] ==> MaxExtent(Aabb(vs)) > 0.0
      ensures normals == ns && texcoords == tcs && colors == cols
      ensures vertIndices == vIndices && normalIndices == nIndices && tcIndices == tIndices && colIndices == cIndices
      ensures meshType == mt && verticesPerPoly == (if mt == Triangles then 3 else 2)
      ensures defColor == Vec4(1.0, 1.0, 1.0, 1.0) && meshDesc == desc
      ensures !scaleToUnitCube || vs == [] ==> vertices == vs
      ensures scaleToUnitCube && vs != [] ==>
                var sb := UnitCubeScale(true, Aabb(vs));
                vertices == ScaleBiasAll(vs, sb.scale, sb.translation)
      ensures BoundsCurrent()
      ensures scaleToUnitCube && vs != [] ==> Center(bounds) == Zero3 && MaxExtent(bounds) == 1.0
      ensures kdTree == (if buildKDTree then Some(KDTree(vertices, vIndices)) else None)
    {
      vertices, normals, texcoords, colors := vs, ns, tcs, cols;
      vertIndices, normalIndices, tcIndices, colIndices := vIndices, nIndices, tIndices, cIndices;
      bounds := Box(Zero3, Zero3);
      kdTree := None;
      defColor := Vec4(1.0, 1.0, 1.0, 1.0);
      meshDesc := desc;
      meshType := mt;
      verticesPerPoly := if mt == Triangles then 3 else 2;
      new;
      ComputeAABB();
      if scaleToUnitCube {
        ScaleToUnitCube();
        assert |vertices| == |vs|;
      }
      if buildKDTree {
        ComputeKDTree();
      }
    }

    /** Recomputes the bounding box from the vertices; with no vertices the
        box is left as it was. */
    method ComputeAABB()
      modifies this`bounds
      ensures |vertices| == 0 ==> bounds == old(bounds)
      ensures BoundsCurrent()
    {
      if |vertices| == 0 {
        return;
      }
      bounds := Box(vertices[0], vertices[0]);
      assert vertices[..1] == [vertices[0]];
      var i := 1;
      while i < |vertices|
        invariant 1 <= i <= |vertices|
        invariant bounds == Aabb(vertices[..i])
      {
        var v := vertices[i];
        if v.x < bounds.lo.x { bounds := bounds.(lo := bounds.lo.(x := v.x)); }
        if v.x > bounds.hi.x { bounds := bounds.(hi := bounds.hi.(x := v.x)); }
        if v.y < bounds.lo.y { bounds := bounds.(lo := bounds.lo.(y := v.y)); }
        if v.y > bounds.hi.y { bounds := bounds.(hi := bounds.hi.(y := v.y)); }
        if v.z < bounds.lo.z { bounds := bounds.(lo := bounds.lo.(z := v.z)); }
        if v.z > bounds.hi.z { bounds := bounds.(hi := bounds.hi.(z := v.z)); }
        assert vertices[..i + 1][..i] == vertices[..i];
        i := i + 1;
      }
      assert vertices[..i] == vertices;
    }

    /** Rebuilds the tree from the current geometry. */
    method ComputeKDTree()
      modifies this`kdTree
      ensures kdTree == Some(KDTree(vertices, vertIndices))
    {
      kdTree := Some(KDTree(vertices, vertIndices));
    }

    /** Brings the box and, when one exists, the tree up to date after the
        vertices changed, each only when asked. */
    method GeometryHasChanged(updateAABB: bool, updateKDTree: bool)
      modifies this`bounds, this`kdTree
      ensures bounds == (if updateAABB && |vertices| > 0 then Aabb(vertices) else old(bounds))
      ensures kdTree == (if updateKDTree && old(kdTree).Some? then Some(KDTree(vertices, vertIndices)) else old(kdTree))
    {
      if updateAABB {
        ComputeAABB();
      }
      if updateKDTree && kdTree.Some? {
        ComputeKDTree();
      }
    }

    /** Scales every vertex component-wise and adds the translation; the box
        corners are mapped the same way instead of being recomputed, and an
        existing tree is rebuilt. */
    method ScaleAndBias(scale: Vec3, translation: Vec3)
      modifies this`vertices, this`bounds, this`kdTree
      ensures vertices == ScaleBiasAll(old(vertices), scale, translation)
      ensures bounds == ScaleBiasBox(old(bounds), scale, translation)
      ensures kdTree == (if old(kdTree).Some? then Some(KDTree(vertices, vertIndices)) else None)
      ensures old(BoundsCurrent()) && NonNegative(scale) ==> BoundsCurrent()
    {
      var i := 0;
      while i < |vertices|
        invariant 0 <= i <= |vertices| == |old(vertices)|
        invariant forall j :: 0 <= j < i ==> vertices[j] == ScaleBiasPoint(old(vertices)[j], scale, translation)
        invariant forall j :: i <= j < |vertices| ==> vertices[j] == old(vertices)[j]
        invariant bounds == old(bounds) && kdTree == old(kdTree)
      {
        vertices := vertices[i := ScaleBiasPoint(vertices[i], scale, translation)];
        i := i + 1;
      }
      assert vertices == ScaleBiasAll(old(vertices), scale, translation);
      bounds := ScaleBiasBox(bounds, scale, translation);
      GeometryHasChanged(false, true);
      if old(BoundsCurrent()) && NonNegative(scale) && |vertices| > 0 {
        ScaleBiasAabb(old(vertices), scale, translation);
      }
    }

    /** Fits the mesh into the unit cube centred on the origin: the scale and
        translation come from the stored box. */
    method ScaleToUnitCube()
      requires |vertices| > 0 ==> MaxExtent(bounds) > 0.0
      modifies this`vertices, this`bounds, this`kdTree
      ensures var sb := UnitCubeScale(|old(vertices)| > 0, old(bounds));
              && vertices == ScaleBiasAll(old(vertices), sb.scale, sb.translation)
              && bounds == ScaleBiasBox(old(bounds), sb.scale, sb.translation)
      ensures kdTree == (if old(kdTree).Some? then Some(KDTree(vertices, vertIndices)) else None)
      ensures old(BoundsCurrent()) ==> BoundsCurrent()
      ensures |vertices| > 0 ==> Center(bounds) == Zero3 && MaxExtent(bounds) == 1.0
    {
      var sb := UnitCubeScale(|vertices| > 0, bounds);
      if |vertices| > 0 {
        UnitCubeFits(bounds);
      }
      ScaleAndBias(sb.scale, sb.translation);
    }

    /** Maps every vertex through `m`, then recomputes the box and rebuilds an
        existing tree. */
    method Transform(m: Mat4)
      modifies this`vertices, this`bounds, this`kdTree
      ensures vertices == TransformAll(m, old(vertices))
      ensures bounds == (if |vertices| > 0 then Aabb(vertices) else old(bounds))
      ensures kdTree == (if old(kdTree).Some? then Some(KDTree(vertices, vertIndices)) else None)
      ensures BoundsCurrent() && TreeCurrent()
    {
      var i := 0;
      while i < |vertices|
        invariant 0 <= i <= |vertices| == |old(vertices)|
        invariant forall j :: 0 <= j < i ==> vertices[j] == TransformPoint(m, old(vertices)[j])
        invariant forall j :: i <= j < |vertices| ==> vertices[j] == old(vertices)[j]
        invariant bounds == old(bounds) && kdTree == old(kdTree)
      {
        vertices := vertices[i := TransformPoint(m, vertices[i])];
        i := i + 1;
      }
      assert vertices == TransformAll(m, old(vertices));
      GeometryHasChanged(true, true);
    }

    /** Replaces the normals of a triangle mesh by per-vertex normals: the face
        normals summed at each corner, then rescaled to unit length; the normal
        index stream becomes the vertex index stream. Other meshes are left alone. */
    method RecomputeNormals(length: LengthFn)
      requires meshType == Triangles ==> WholeTriangles(vertices, vertIndices)
      modifies this`normals, this`normalIndices
      ensures meshType != Triangles ==> normals == old(normals) && normalIndices == old(normalIndices)
      ensures meshType == Triangles ==>
                normals == VertexNormals(length, vertices, vertIndices) && normalIndices == vertIndices
    {
      if meshType != Triangles {
        return;
      }
      ResetNormals();
      AccumulateFaceNormals();
      NormalizeNormals(length);
      normalIndices := vertIndices;
    }

    /** First pass of `RecomputeNormals`: one zero normal per vertex. */
    method ResetNormals()
      modifies this`normals
      ensures normals == FaceSums(vertices, [])
    {
      normals := Resized(normals, |vertices|);
      var i := 0;
      while i < |normals|
        invariant 0 <= i <= |normals| == |vertices|
        invariant forall j :: 0 <= j < i ==> normals[j] == Zero3
      {
        normals := normals[i := Zero3];
        i := i + 1;
      }
    }

    /** Second pass of `RecomputeNormals`: each triangle's face normal is added
        to the normals of its three corners. */
    method AccumulateFaceNormals()
      requires WholeTriangles(vertices, vertIndices)
      requires normals == FaceSums(vertices, [])
      modifies this`normals
      ensures normals == FaceSums(vertices, vertIndices)
    {
      var i := 0;
      assert vertIndices[..0] == [];
      while i < |vertIndices|
        invariant 0 <= i <= |vertIndices| && i % 3 == 0
        invariant WholeTriangles(vertices, vertIndices[..i])
        invariant normals == FaceSums(vertices, vertIndices[..i])
      {
        var a, b, c := vertIndices[i], vertIndices[i + 1], vertIndices[i + 2];
        var norm := FaceNormal(vertices, a, b, c);
        normals := normals[a := Add(normals[a], norm)];
        normals := normals[b := Add(normals[b], norm)];
        normals := normals[c := Add(normals[c], norm)];
        AccumulateStep(vertices, vertIndices, i);
        i := i + 3;
      }
      assert vertIndices[..i] == vertIndices;
    }

    /** Third pass of `RecomputeNormals`: every normal of positive length is
        divided by its length. */
    method NormalizeNormals(length: LengthFn)
      modifies this`normals
      ensures normals == NormalizeAll(length, old(normals))
    {
      var i := 0;
      while i < |normals|
        invariant 0 <= i <= |normals| == |old(normals)|
        invariant forall j :: 0 <= j < i ==> normals[j] == Normalized(length, old(normals)[j])
        invariant forall j :: i <= j < |normals| ==> normals[j] == old(normals)[j]
      {
        var l := length(normals[i]);
        if l > 0.0 {
          normals := normals[i := Div(normals[i], l)];
        }
        i := i + 1;
      }
    }

    /** Checks that the attribute index streams have the vertex stream's length
        (or are empty) and, in deep mode, that every index is in range. */
    method Validate(deep: bool) returns (ok: bool)
      ensures ok == (SizesMatch() && (deep ==> IndicesInRange()))
    {
      if |normalIndices| != 0 && |normalIndices| != |vertIndices| { return false; }
      if |tcIndices| != 0 && |tcIndices| != |vertIndices| { return false; }
      if |colIndices| != 0 && |colIndices| != |vertIndices| { return false; }
      if !deep { return true; }
      ok := IndicesBelow(vertIndices, |vertices|);
      if !ok { return false; }
      ok := IndicesBelow(normalIndices, |normals|);
      if !ok { return false; }
      ok := IndicesBelow(tcIndices, |texcoords|);
      if !ok { return false; }
      ok := IndicesBelow(colIndices, |colors|);
      if !ok { return false; }
      return true;
    }

    /** A mesh that passes deep validation, has whole triangles, and whose
        colour stream is backed by texture-coordinate indices that select
        colours, can be intersected triangle by triangle. */
    lemma ValidMeshIsReady()
      requires SizesMatch() && IndicesInRange() && |vertIndices| % 3 == 0
      requires |colIndices| != 0 ==> |tcIndices| == |vertIndices| && AllBelow(tcIndices, |colors|)
      ensures IntersectReady()
    {
      forall i: nat | i < |vertIndices| && i % 3 == 0 ensures TriangleReadable(i) {
        assert i + 2 < |vertIndices|;
      }
    }

    /** The vertex at corner `k` of the index stream. */
    function Corner(k: nat): Vec3
      reads this
      requires k < |vertIndices| && vertIndices[k] < |vertices|
    {
      vertices[vertIndices[k]]
    }

    /** Intersects the ray with the triangle starting at index `i`. A hit
        carries the distance, the normal turned against the ray, the
        interpolated texture coordinate, and `color` with its first two
        components interpolated. */
    function IntersectTriangle(i: nat, ray: Ray, color: Vec4, length: LengthFn): (r: Option<Hit>)
      reads this
      requires TriangleReadable(i)
      ensures var rt := RayTriangle(Corner(i), Corner(i + 1), Corner(i + 2), ray);
              && (r.Some? <==> rt.Some?)
              && (r.Some? ==> r.value.t == rt.value.t)
      ensures r.Some? ==> r.value.t >= 0.0 && Dot(ray.direction, r.value.normal) <= 0.0
      ensures r.Some? ==> r.value.color.z == color.z && r.value.color.w == color.w
    {
      var v0, v1, v2 := Corner(i), Corner(i + 1), Corner(i + 2);
      match RayTriangle(v0, v1, v2, ray)
      case None => None
      case Some(b) =>
        Some(Hit(b.t, Facing(ray, Normalized(length, NormalAt(i, b))), TexCoordAt(i, b), ColorAt(i, b, color)))
    }

    /** A hit of the triangle test is a point of the triangle ahead on the
        ray, at the reported distance; a miss with a determinant away from
        zero means no such point exists. */
    lemma IntersectTriangleExact(i: nat, ray: Ray, color: Vec4, length: LengthFn)
      requires TriangleReadable(i)
      ensures var r := IntersectTriangle(i, ray, color, length);
              var rt := RayTriangle(Corner(i), Corner(i + 1), Corner(i + 2), ray);
              && (r.Some? ==> rt.Some? && rt.value.t == r.value.t && MeetsAt(Corner(i), Corner(i + 1), Corner(i + 2), ray, rt.value))
              && (r.None? && !NearParallel(Determinant(Corner(i), Corner(i + 1), Corner(i + 2), ray)) ==>
                    Misses(Corner(i), Corner(i + 1), Corner(i + 2), ray))
    {
      var v0, v1, v2 := Corner(i), Corner(i + 1), Corner(i + 2);
      RayTriangleSound(v0, v1, v2, ray);
      RayTriangleMissIsReal(v0, v1, v2, ray);
    }

    /** The unnormalized normal at a hit: interpolated from the corner normals
        when there are any, where the third corner's normal is read through
        the second corner's index; the face normal `edge1 x edge2` otherwise.
        Because of that index, the interpolation only moves from the first
        corner's normal towards the second one's, by `u + v`, and the third
        corner's normal is never used. Without normals it is the opposite of
        the face normal that `RecomputeNormals` accumulates. */
    function NormalAt(i: nat, b: Barycentric): (n: Vec3)
      reads this
      requires TriangleReadable(i)
      ensures |normalIndices| != 0 ==>
                var n0, n1 := normals[normalIndices[i]], normals[normalIndices[i + 1]];
                n == Add(n0, Scale(Sub(n1, n0), b.u + b.v))
      ensures |normalIndices| == 0 ==>
                Scale(n, -1.0) == FaceNormal(vertices, vertIndices[i], vertIndices[i + 1], vertIndices[i + 2])
    {
      FaceNormalOpposesEdgeCross(vertices, vertIndices[i], vertIndices[i + 1], vertIndices[i + 2]);
      if |normalIndices| != 0 then
        var n0 := normals[normalIndices[i]];
        var n1 := normals[normalIndices[i + 1]];
        var n2 := normals[normalIndices[i + 1]];
        Lerp3(n0, n1, n2, b.u, b.v)
      else
        Cross(Sub(Corner(i + 1), Corner(i)), Sub(Corner(i + 2), Corner(i)))
    }

    /** The texture coordinate at a hit, interpolated from the three corners'
        coordinates, or (0, 0) without texture coordinates. At the corners
        `(u, v) = (0, 0)`, `(1, 0)` and `(0, 1)` it is that corner's coordinate. */
    function TexCoordAt(i: nat, b: Barycentric): (tc: Vec2)
      reads this
      requires TriangleReadable(i)
      ensures |tcIndices| == 0 ==> tc == Zero2
      ensures |tcIndices| != 0 && b.u == 0.0 && b.v == 0.0 ==> tc == texcoords[tcIndices[i]]
      ensures |tcIndices| != 0 && b.u == 1.0 && b.v == 0.0 ==> tc == texcoords[tcIndices[i + 1]]
      ensures |tcIndices| != 0 && b.u == 0.0 && b.v == 1.0 ==> tc == texcoords[tcIndices[i + 2]]
    {
      if |tcIndices| != 0 then
        var t0, t1, t2 := texcoords[tcIndices[i]], texcoords[tcIndices[i + 1]], texcoords[tcIndices[i + 2]];
        Vec2(Lerp(t0.x, t1.x, t2.x, b.u, b.v), Lerp(t0.y, t1.y, t2.y, b.u, b.v))
      else Zero2
    }

    /** `color` with its x and y replaced: interpolated from the colours the
        texture-coordinate indices select when there is a colour index
        stream, 0 otherwise. */
    function ColorAt(i: nat, b: Barycentric, color: Vec4): (c: Vec4)
      reads this
      requires TriangleReadable(i)
      ensures c.z == color.z && c.w == color.w
      ensures |colIndices| == 0 ==> c.x == 0.0 && c.y == 0.0
      ensures |colIndices| != 0 && b.u == 0.0 && b.v == 0.0 ==>
                c.x == colors[tcIndices[i]].x && c.y == colors[tcIndices[i]].y
      ensures |colIndices| != 0 && b.u == 1.0 && b.v == 0.0 ==>
                c.x == colors[tcIndices[i + 1]].x && c.y == colors[tcIndices[i + 1]].y
      ensures |colIndices| != 0 && b.u == 0.0 && b.v == 1.0 ==>
                c.x == colors[tcIndices[i + 2]].x && c.y == colors[tcIndices[i + 2]].y
    {
      if |colIndices| != 0 then
        var c0, c1, c2 := colors[tcIndices[i]], colors[tcIndices[i + 1]], colors[tcIndices[i + 2]];
        Vec4(Lerp(c0.x, c1.x, c2.x, b.u, b.v), Lerp(c0.y, c1.y, c2.y, b.u, b.v), color.z, color.w)
      else Vec4(0.0, 0.0, color.z, color.w)
    }

    /** The results of the per-triangle test for the first `k` triangles, in
        order, each started from a zero colour. */
    function TriangleHits(ray: Ray, length: LengthFn, k: nat): (r: seq<Option<Hit>>)
      reads this
      requires IntersectReady() && 3 * k <= |vertIndices|
      ensures |r| == k
      ensures forall j :: 0 <= j < k ==> TriangleReadable(3 * j) && r[j] == IntersectTriangle(3 * j, ray, Zero4, length)
    {
      if k == 0 then []
      else
        assert (3 * (k - 1)) % 3 == 0;
        TriangleHits(ray, length, k - 1) + [IntersectTriangle(3 * (k - 1), ray, Zero4, length)]
    }

    /** The nearest intersection of the ray with the mesh. Meshes other than
        triangle meshes have none; with a tree the tree answers; otherwise
        every triangle is tested in order and the first of the nearest hits
        wins. `tmin` and `tmax` only reach the tree. */
    method IntersectInternal(ray: Ray, tmin: real, tmax: real, treeQuery: TreeQuery, length: LengthFn)
      returns (r: Option<Hit>)
      requires meshType == Triangles && kdTree.None? ==> IntersectReady()
      ensures meshType != Triangles ==> r.None?
      ensures meshType == Triangles && kdTree.Some? ==> r == treeQuery(kdTree.value, ray, tmin, tmax)
      ensures meshType == Triangles && kdTree.None? ==>
                var hs := TriangleHits(ray, length, |vertIndices| / 3);
                && r == Nearest(hs)
                && (r.None? <==> forall k :: 0 <= k < |hs| ==> hs[k].None?)
                && (r.Some? ==> exists k :: FirstNearest(hs, k) && hs[k] == r)
    {
      if meshType != Triangles {
        return None;
      }
      if kdTree.Some? {
        return treeQuery(kdTree.value, ray, tmin, tmax);
      }
      r := NearestTriangleHit(ray, length);
      NearestIsFirstMinimum(TriangleHits(ray, length, |vertIndices| / 3));
    }

    /** The scan without a tree: every triangle in order, a hit replacing the
        best so far only when it is strictly nearer. The colour scratch value
        starts at zero and only its first two components are ever written. */
    method NearestTriangleHit(ray: Ray, length: LengthFn) returns (best: Option<Hit>)
      requires IntersectReady()
      ensures best == Nearest(TriangleHits(ray, length, |vertIndices| / 3))
    {
      best := None;
      var scratchColor := Zero4;
      var i := 0;
      ghost var k := 0;
      while i < |vertIndices|
        invariant i == 3 * k && i <= |vertIndices|
        invariant scratchColor.z == 0.0 && scratchColor.w == 0.0
        invariant best == Nearest(TriangleHits(ray, length, k))
      {
        best, scratchColor := ScanTriangle(i, k, ray, length, best, scratchColor);
        i := i + 3;
        k := k + 1;
      }
      ThirdOfMultiple(|vertIndices|, k);
    }

    /** One step of the scan: test triangle `k`, keep the colour of a hit in
        the scratch value and keep the hit when it is strictly nearer. */
    method ScanTriangle(i: nat, ghost k: nat, ray: Ray, length: LengthFn, best: Option<Hit>, scratchColor: Vec4)
      returns (best': Option<Hit>, scratchColor': Vec4)
      requires IntersectReady() && i == 3 * k && i < |vertIndices|
      requires scratchColor.z == 0.0 && scratchColor.w == 0.0
      requires best == Nearest(TriangleHits(ray, length, k))
      ensures 3 * (k + 1) <= |vertIndices|
      ensures scratchColor'.z == 0.0 && scratchColor'.w == 0.0
      ensures best' == Nearest(TriangleHits(ray, length, k + 1))
    {
      TriangleHitsStep(ray, length, k);
      var h := IntersectTriangle(i, ray, scratchColor, length);
      IntersectTriangleColor(i, ray, scratchColor, length);
      best', scratchColor' := best, scratchColor;
      if h.Some? {
        scratchColor' := h.value.color;
        if best.None? || h.value.t < best.value.t {
          best' := h;
        }
      }
    }

    /** Scanning one more triangle is one more step of `Closer`. */
    lemma TriangleHitsStep(ray: Ray, length: LengthFn, k: nat)
      requires IntersectReady() && 3 * k < |vertIndices|
      ensures TriangleReadable(3 * k) && 3 * (k + 1) <= |vertIndices|
      ensures Nearest(TriangleHits(ray, length, k + 1))
           == Closer(Nearest(TriangleHits(ray, length, k)), IntersectTriangle(3 * k, ray, Zero4, length))
    {
      assert (3 * k) % 3 == 0;
      assert TriangleReadable(3 * k);
      var hs := TriangleHits(ray, length, k + 1);
      assert hs[..k] == TriangleHits(ray, length, k);
    }

    /** The incoming colour reaches a hit only through its last two components. */
    lemma IntersectTriangleColor(i: nat, ray: Ray, color: Vec4, length: LengthFn)
      requires TriangleReadable(i) && color.z == 0.0 && color.w == 0.0
      ensures IntersectTriangle(i, ray, color, length) == IntersectTriangle(i, ray, Zero4, length)
    {
      assert forall b :: ColorAt(i, b, color) == ColorAt(i, b, Zero4);
    }

    /** The slab test of the ray against the stored box: for a proper box it
        reports a hit exactly when a point of the ray at a positive distance
        lies in the box, and then its two distances bound exactly the part of
        the ray inside. */
    function AABBIntersect(r: Ray): (s: Slab)
      reads this
      requires NonZero(r.direction)
      ensures Proper(bounds) ==> (s.hit <==> exists t :: t > 0.0 && Contains(bounds, At(r, t)))
      ensures Proper(bounds) && s.hit ==> forall t :: s.tmin <= t <= s.tmax <==> Contains(bounds, At(r, t))
    {
      if Proper(bounds) then SlabTestCorrect(bounds, r); SlabTest(bounds, r)
      else SlabTest(bounds, r)
    }
  }

  /** A vector resized as `std::vector::resize` does: truncated, or padded
      with zero vectors. */
  function Resized(ns: seq<Vec3>, n: nat): (r: seq<Vec3>)
    ensures |r| == n
    ensures forall j :: 0 <= j < n && j < |ns| ==> r[j] == ns[j]
    ensures forall j :: |ns| <= j < n ==> r[j] == Zero3
  {
    if |ns| >= n then ns[..n] else ns + seq(n - |ns|, _ => Zero3)
  }

  /** A multiple of three divided by three. */
  lemma ThirdOfMultiple(m: nat, k: nat)
    requires m == 3 * k
    ensures m / 3 == k
  {
  }

  /** `n`, negated when it points along the ray, so that it faces the ray. */
  function Facing(ray: Ray, n: Vec3): (f: Vec3)
    ensures Dot(ray.direction, f) <= 0.0
    ensures f == n || f == Scale(n, -1.0)
  {
    NegateDot(ray.direction, n);
    if Dot(ray.direction, n) > 0.0 then Scale(n, -1.0) else n
  }

  lemma NegateDot(d: Vec3, n: Vec3)
    ensures Dot(d, Scale(n, -1.0)) == -Dot(d, n)
  {
  }

  /** `a0 + u * (a1 - a0) + v * (a2 - a0)`: barycentric interpolation. */
  function Lerp(a0: real, a1: real, a2: real, u: real, v: real): real {
    a0 + u * (a1 - a0) + v * (a2 - a0)
  }

  function Lerp3(n0: Vec3, n1: Vec3, n2: Vec3, u: real, v: real): Vec3 {
    Add(Add(n0, Scale(Sub(n1, n0), u)), Scale(Sub(n2, n0), v))
  }

  /** One step of the accumulation pass: adding triangle `i`'s face normal to
      the sums of the triangles before it gives the sums including it. */
  lemma AccumulateStep(vs: seq<Vec3>, idx: seq<nat>, i: nat)
    requires WholeTriangles(vs, idx) && i % 3 == 0 && i + 3 <= |idx|
    requires WholeTriangles(vs, idx[..i])
    ensures WholeTriangles(vs, idx[..i + 3])
    ensures var a, b, c := idx[i], idx[i + 1], idx[i + 2];
            FaceSums(vs, idx[..i + 3]) == AddFace(FaceSums(vs, idx[..i]), a, b, c, FaceNormal(vs, a, b, c))
  {
    var p := idx[..i + 3];
    assert p[..i] == idx[..i];
    assert p[i] == idx[i] && p[i + 1] == idx[i + 1] && p[i + 2] == idx[i + 2];
  }
}
