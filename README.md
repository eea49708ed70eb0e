# Tuvok triangle mesh, modelled in Dafny

This project models `tuvok::Mesh`, the triangle/line mesh of the Tuvok volume
rendering library (`Mesh.cpp`). A mesh holds vertex, normal,
texture-coordinate and colour arrays, with one index stream each. It also keeps
an axis-aligned bounding box and an optional k-d tree over its triangles.
The model covers:

- the two constructors;
- the bounding-box computation, unit-cube scaling, scale-and-bias and matrix
  transforms, and the update of the box and tree after geometry changes;
- per-vertex normal recomputation;
- index validation;
- the ray queries: the Möller–Trumbore triangle test, the nearest-hit scan
  over all triangles, and the slab test against the bounding box.

Modules:

- `Vectors` (`vectors.dfy`): 2/3/4-component vectors over `real`, dot and
  cross products, rays, 4x4 matrices and the point transform.
- `Indices` (`indices.dfy`): the range condition on an index stream.
- `Bounds` (`bounds.dfy`): boxes, the running min/max box, scale and bias of
  points and boxes, the unit-cube scale, and the ray/box slab test with its
  correctness proof.
- `Intersection` (`intersection.dfy`): the ray/triangle test, proved exact
  by Cramer's rule, and the in-order nearest-hit fold.
- `Normals` (`normals.dfy`): face normals, the accumulation of face normals
  at corners, and normalisation. There is a reference per-vertex sum and a
  proof that the accumulation pass computes it.
- `Meshes` (`mesh.dfy`): the `Mesh` class.
  - Its fields are the arrays, the index streams, the box, the tree
    (present or absent) and the descriptive fields.
  - Its methods update those fields in place with the source's loops.
  - Every method is proved against the specification functions of the
    modules above.

Behaviour of the code that is modelled as written:

- In `IntersectTriangle`, the third corner's normal is read through
  `m_NormalIndices[i+1]`, the same index as the second corner's. The
  interpolated normal is therefore `n0 + (u + v) * (n1 - n0)`, and the third
  corner's normal never contributes (`Meshes.Mesh.NormalAt`).
- Per-hit colours are looked up through the texture-coordinate index stream.
  Only their x and y components are interpolated: z and w keep whatever the
  caller's colour held. In the scan of `IntersectInternal` that caller's
  colour is a scratch value, zero at the start and carried from hit to hit
  (`Meshes.Mesh.ColorAt`, `Meshes.Mesh.ScanTriangle`).
- `Validate` checks colour indices against the colour array. The intersection
  code, however, indexes the colour array with texture-coordinate indices, so
  a deep-validated mesh is not necessarily safe to intersect. The extra
  condition it needs is stated in `Meshes.Mesh.ValidMeshIsReady`.
- `Transform` drops the fourth coordinate of `(v, 1) * m` and does not divide
  by it.
- `ScaleAndBias` maps the two stored box corners instead of recomputing the
  box. This is exact for non-negative scales (`Bounds.ScaleBiasAabb`). With a
  negative scale on an axis where the box has positive thickness, the stored
  box becomes improper (`Bounds.NegativeScaleSwapsCorners`).
- The face normal of `RecomputeNormals`, `(va - vc) x (va - vb)`, is the
  opposite of the face normal `edge1 x edge2` that `IntersectTriangle` uses
  when there are no normals (`Normals.FaceNormalOpposesEdgeCross`).
- A triangle replaces the best hit only when it is strictly nearer, so among
  equally near hits the first one wins (`Intersection.NearestIsFirstMinimum`).
- "No intersection", which the source encodes as the largest `double`, is
  `None`.

## Model

| member | source | states |
|---|---|---|
| Meshes.Mesh.Default | Mesh.cpp:41-48 | the default mesh is an empty triangle mesh with stride 3, white default colour, the generic description and no tree |
| Meshes.Mesh.constructor | Mesh.cpp:50-74 | the mesh keeps the given arrays; its box is the vertices' box; when asked, the vertices are fitted into the unit cube (centre 0, largest extent 1); a tree over the final geometry exists exactly when asked |
| Meshes.Mesh.ComputeAABB | Mesh.cpp:77-91 | with vertices, the stored box becomes the running min/max of all vertices; with none, the box is left as it was |
| Bounds.AabbIsTight | Mesh.cpp:77-91 | the running min/max box is proper, contains every vertex, and each of its six coordinates is attained by some vertex |
| Bounds.AabbOfAabbCorners | Mesh.cpp:77-91 | recomputing the box of a box's two corners gives the same box |
| Bounds.MaxExtent | Mesh.cpp:101-107 | the nested comparisons pick an extent that is one of the three and no smaller than any of them |
| Bounds.UnitCubeScale | Mesh.cpp:93-111 | the unit-cube scale is uniform and positive |
| Bounds.UnitCubeScaleEmpty | Mesh.cpp:95-98 | without vertices the scale and translation are the identity and map every box onto itself |
| Bounds.UnitCubeFits | Mesh.cpp:101-110 | a box with a positive extent, mapped by its unit-cube scale, is centred on the origin with largest extent exactly 1 |
| Meshes.Mesh.ScaleAndBias | Mesh.cpp:121-131 | every vertex is scaled component-wise and translated; the box corners are mapped the same way; an existing tree is rebuilt over the new geometry; for non-negative scales an up-to-date box stays up to date |
| Bounds.ScaleBiasAabb | Mesh.cpp:124-128 | for non-negative scales, the box of the mapped vertices equals the mapped box of the vertices |
| Bounds.NegativeScaleSwapsCorners | Mesh.cpp:127-128 | a negative scale on any axis where the box has positive thickness leaves the mapped box improper |
| Meshes.Mesh.GeometryHasChanged | Mesh.cpp:133-136 | the box is recomputed only when asked and there are vertices; the tree is rebuilt only when asked and one exists |
| Meshes.Mesh.ComputeKDTree | Mesh.cpp:341-344 | the tree is replaced by one built over the current vertices and index stream |
| Meshes.Mesh.ScaleToUnitCube | Mesh.cpp:138-142 | the vertices and box are mapped by the unit-cube scale of the stored box; an up-to-date box stays up to date; a non-empty mesh ends centred with largest extent 1; an existing tree is rebuilt |
| Vectors.TransformIdentity | Mesh.cpp:113-116 | transforming by the identity matrix leaves every vertex in place |
| Meshes.Mesh.Transform | Mesh.cpp:113-118 | every vertex is mapped through the matrix; afterwards the box is the box of the new vertices and an existing tree is rebuilt over them |
| Meshes.Mesh.RecomputeNormals | Mesh.cpp:148-172 | a triangle mesh gets one normal per vertex, equal to the normalised sum of the face normals around it, and its normal index stream becomes its vertex index stream; other meshes are unchanged |
| Meshes.Mesh.ResetNormals | Mesh.cpp:151-152 | after the resize and clearing, there is one zero normal per vertex |
| Meshes.Resized | Mesh.cpp:151 | resizing keeps the common prefix and pads with zero vectors up to the new length |
| Meshes.Mesh.AccumulateFaceNormals | Mesh.cpp:154-165 | after the pass, the normals are the face-normal sums over all triangles |
| Meshes.AccumulateStep | Mesh.cpp:154-165 | processing one more triangle adds its face normal at its three corners, one after the other |
| Normals.AddFaceAt | Mesh.cpp:162-164 | each corner's normal gains the face normal once per time that vertex is named as a corner of the triangle |
| Normals.Corners | Mesh.cpp:162-164 | a vertex is named at most three times by one triangle, and zero times exactly when it is none of its corners |
| Normals.FaceSumsAt | Mesh.cpp:154-165 | the normal sum at vertex j equals the reference sum over all triangles of their face normals, weighted by how often j is a corner |
| Normals.FaceNormalOpposesEdgeCross | Mesh.cpp:157-160 | the accumulated face normal is the negation of `edge1 x edge2` |
| Meshes.Mesh.NormalizeNormals | Mesh.cpp:166-169 | every normal of positive length is divided by its length; the others are kept |
| Normals.NormalizedIsUnit | Mesh.cpp:166-168 | with a homogeneous length, dividing a vector of positive length by its length gives length 1; other vectors are left unchanged |
| Normals.VertexNormalsAt | Mesh.cpp:148-169 | each recomputed normal is the normalised reference sum of the face normals at that vertex |
| Normals.VertexNormalsUnit | Mesh.cpp:148-169 | each recomputed normal has length 1, or its sum had no positive length and is kept as it was |
| Normals.UnusedVertexNormalIsZero | Mesh.cpp:148-169 | a vertex that no triangle uses gets the zero normal |
| Meshes.Mesh.Validate | Mesh.cpp:174-212 | the answer is true exactly when every non-empty attribute index stream has the vertex stream's length and, in deep mode, every index is below the size of the array it indexes |
| Meshes.IndicesBelow | Mesh.cpp:186-209 | the range scan answers true exactly when every index is below the count |
| Meshes.Mesh.ValidMeshIsReady | Mesh.cpp:174-212 | a deep-valid mesh with whole triangles, whose colours are also reachable through its texture-coordinate indices, has every triangle readable by the intersection code |
| Intersection.RayTriangle | Mesh.cpp:247-283 | a reported hit has a non-negative distance, non-negative barycentrics and `u + v <= 1` |
| Intersection.RayTriangleSound | Mesh.cpp:253-283 | a reported hit has a determinant outside the near-parallel band, and the ray point at distance t is the triangle point with barycentrics (u, v) |
| Intersection.SolutionUnique | Mesh.cpp:264-281 | with a non-zero determinant, the computed (t, u, v) is the only solution of ray point == plane point |
| Intersection.RayTriangleComplete | Mesh.cpp:253-283 | every genuine intersection outside the near-parallel band is reported with its own distance and barycentrics |
| Intersection.RayTriangleMissIsReal | Mesh.cpp:263-283 | a miss outside the near-parallel band means no point of the triangle lies ahead on the ray |
| Intersection.RayTriangleExact | Mesh.cpp:247-283 | the test reports (t, u, v) exactly when the determinant is outside the band and the ray meets the triangle there |
| Meshes.Mesh.IntersectTriangle | Mesh.cpp:243-338 | a hit exists exactly when the triangle test reports one, at the same distance; the hit's normal faces against the ray; the colour's z and w pass through unchanged |
| Meshes.Mesh.IntersectTriangleExact | Mesh.cpp:243-283 | a hit is a genuine point of the triangle ahead on the ray at the reported distance; a miss outside the near-parallel band is a genuine miss |
| Meshes.Mesh.NormalAt | Mesh.cpp:285-299 | with corner normals, the normal at a hit is the first corner's normal moved towards the second's by `u + v`, whatever the third corner's normal is; without them, it is the opposite of the face normal that the normal recomputation accumulates |
| Meshes.Mesh.TexCoordAt | Mesh.cpp:303-318 | with texture coordinates, the interpolation gives each corner's own coordinate at `(u, v)` = `(0, 0)`, `(1, 0)` and `(0, 1)`; without them it is `(0, 0)` |
| Meshes.Facing | Mesh.cpp:301 | the normal is kept or negated so that its dot product with the ray direction is not positive |
| Meshes.Mesh.ColorAt | Mesh.cpp:320-335 | only x and y of the colour are written, and z and w are those passed in; with a colour index stream, x and y at each corner are those of the colour that corner's texture-coordinate index selects; without one, they are 0 |
| Meshes.Mesh.IntersectTriangleColor | Mesh.cpp:320-335 | a scratch colour with zero z and w gives the same hit as a zero colour |
| Meshes.Mesh.TriangleHits | Mesh.cpp:228-229 | the per-triangle results of the first k triangles, in order, each is that triangle's test from a zero colour |
| Intersection.NearestIsFirstMinimum | Mesh.cpp:223-239 | the scan finds no hit exactly when no triangle is hit; otherwise it returns a hit no other is nearer than, and every earlier hit is strictly farther |
| Meshes.Mesh.TriangleHitsStep | Mesh.cpp:228-238 | scanning one more triangle is one more strictly-nearer replacement step |
| Meshes.Mesh.ScanTriangle | Mesh.cpp:229-236 | one loop step keeps the scratch colour's z and w at zero and extends the nearest hit by the next triangle |
| Meshes.Mesh.NearestTriangleHit | Mesh.cpp:223-239 | the scan without a tree returns the in-order nearest hit over all triangles |
| Meshes.Mesh.IntersectInternal | Mesh.cpp:214-241 | non-triangle meshes have no hit; with a tree the tree's answer is returned; otherwise no hit exactly when no triangle is hit, else the first of the nearest triangle hits |
| Bounds.SlabOverlapCorrect | Mesh.cpp:366-376 | the interval clipping reports whether the three per-axis intervals share a positive distance, and on success returns exactly their common part |
| Bounds.SlabTestCorrect | Mesh.cpp:350-377 | for a proper box, the slab test hits exactly when some point of the ray at a positive distance lies in the box, and then [tmin, tmax] is exactly the part of the ray inside the box |
| Meshes.Mesh.AABBIntersect | Mesh.cpp:350-377 | the slab test against the stored box has the meaning above whenever the stored box is proper |

## Left out

- Floating point. Coordinates are mathematical reals, so rounding, overflow,
  infinities and NaN are not modelled. The `float`/`double` conversions
  inside `IntersectTriangle` are identities here.
- The Euclidean length and `normalize` need a square root, which is not
  available over reals here. The length is a parameter `length` of the
  members that need it. Normalising a vector whose length is not positive is
  taken to leave it unchanged.
- The k-d tree's construction and its ray query (`KDTree.h`) are not part of
  this model. A tree is recorded as the geometry it was built from, and its
  query is a parameter of `IntersectInternal`.
- The destructor (memory release only) and `GetKDTree` (a plain getter) are
  not modelled.
- The matrix convention is taken as row vector times matrix. Default-constructed
  vectors and the default-constructed box are taken as zero.
- Meshes.Mesh.IntersectInternal: `tmin` and `tmax` are passed to the tree
  only, as in the source; the scan without a tree ignores them.
- Meshes.Mesh.IntersectTriangle: requires every attribute index of the
  triangle to be in range, even though the source reads them only on a hit.
- Meshes.Mesh.AABBIntersect: requires every ray direction component to be
  non-zero. The source divides by them and relies on IEEE infinities for
  axis-parallel rays.
- Meshes.Mesh.ScaleToUnitCube: requires a non-empty mesh to have a positive
  largest extent. The source divides by that extent.
- Meshes.Mesh.constructor: requires the same of the given vertices when
  scaling to the unit cube is asked for.
- File input and output, the brick cache, frame-buffer textures, the GPU
  hash table and the data browser are other parts of the library and are not
  modelled.
