/** Small fixed-size vectors, rays and 4x4 matrices over exact reals.
    They stand for the FLOATVECTORn / DOUBLEVECTORn / FLOATMATRIX4 value types the
    mesh code uses; rounding is not modelled. */
module Vectors {

  datatype Option<+T> = None | Some(value: T)

  datatype Vec2 = Vec2(x: real, y: real)
  datatype Vec3 = Vec3(x: real, y: real, z: real)
  datatype Vec4 = Vec4(x: real, y: real, z: real, w: real)

  const Zero2: Vec2 := Vec2(0.0, 0.0)
  const Zero3: Vec3 := Vec3(0.0, 0.0, 0.0)
  const One3: Vec3 := Vec3(1.0, 1.0, 1.0)
  const Zero4: Vec4 := Vec4(0.0, 0.0, 0.0, 0.0)

  function Add(a: Vec3, b: Vec3): Vec3 {
    Vec3(a.x + b.x, a.y + b.y, a.z + b.z)
  }

  function Sub(a: Vec3, b: Vec3): Vec3 {
    Vec3(a.x - b.x, a.y - b.y, a.z - b.z)
  }

  /** Component-wise product (`v * scale` with two vectors). */
  function Mul(a: Vec3, b: Vec3): Vec3 {
    Vec3(a.x * b.x, a.y * b.y, a.z * b.z)
  }

  /** Product with a scalar (`v * s`). */
  function Scale(a: Vec3, s: real): Vec3 {
    Vec3(a.x * s, a.y * s, a.z * s)
  }

  /** Quotient by a scalar (`v / s`). */
  function Div(a: Vec3, s: real): Vec3
    requires s != 0.0
  {
    Vec3(a.x / s, a.y / s, a.z / s)
  }

  /** Dot product (the `^` operator of the vector library). */
  function Dot(a: Vec3, b: Vec3): real {
    a.x * b.x + a.y * b.y + a.z * b.z
  }

  /** Cross product (the `%` operator of the vector library). */
  function Cross(a: Vec3, b: Vec3): Vec3 {
    Vec3(a.y * b.z - a.z * b.y, a.z * b.x - a.x * b.z, a.x * b.y - a.y * b.x)
  }

  /** A length function as the vector library's `length()` would be: the
      Euclidean norm is not expressible over Dafny's reals, so callers pass one in. */
  type LengthFn = Vec3 -> real

  /** `v` divided by its length when that length is positive, `v` unchanged otherwise. */
  function Normalized(length: LengthFn, v: Vec3): Vec3 {
    var l := length(v);
    if l > 0.0 then Div(v, l) else v
  }

  /** A ray: `start + t * direction` for t >= 0. */
  datatype Ray = Ray(start: Vec3, direction: Vec3)

  function At(r: Ray, t: real): Vec3 {
    Add(r.start, Scale(r.direction, t))
  }

  /** A 4x4 matrix, row by row; a point is a row vector multiplied on the left. */
  datatype Mat4 = Mat4(m11: real, m12: real, m13: real, m14: real,
                       m21: real, m22: real, m23: real, m24: real,
                       m31: real, m32: real, m33: real, m34: real,
                       m41: real, m42: real, m43: real, m44: real)

  const Identity: Mat4 := Mat4(1.0, 0.0, 0.0, 0.0,
                               0.0, 1.0, 0.0, 0.0,
                               0.0, 0.0, 1.0, 0.0,
                               0.0, 0.0, 0.0, 1.0)

  /** The `.xyz()` of `(v, 1) * m`: the fourth coordinate is dropped, no
      homogeneous divide takes place. */
  function TransformPoint(m: Mat4, v: Vec3): Vec3 {
    Vec3(v.x * m.m11 + v.y * m.m21 + v.z * m.m31 + m.m41,
         v.x * m.m12 + v.y * m.m22 + v.z * m.m32 + m.m42,
         v.x * m.m13 + v.y * m.m23 + v.z * m.m33 + m.m43)
  }

  /** The image of every point under `m`, in order. */
  function TransformAll(m: Mat4, vs: seq<Vec3>): seq<Vec3> {
    seq(|vs|, i requires 0 <= i < |vs| => TransformPoint(m, vs[i]))
  }

  /** Transforming by the identity matrix moves no point. */
  lemma TransformIdentity(vs: seq<Vec3>)
    ensures TransformAll(Identity, vs) == vs
  {
    var r := TransformAll(Identity, vs);
    forall i | 0 <= i < |vs| ensures r[i] == vs[i] {
      var v := vs[i];
      assert TransformPoint(Identity, v) == Vec3(v.x, v.y, v.z);
    }
  }
}
