/** The raymath supplements of utils.h and Utils.h: 3x3 matrices for 2D
    homogeneous transforms, the 4x4 vector transform, interpolation and
    midpoints.

    A Matrix3 holds its entries column by column: row r, column c is
    m(r + 3c), so `Vector3Transform(v, M)` computes M v. Matrix3Multiply is
    meant to compose, left first and right second (right * left); as written
    its third row reads right.m6 where right.m5 belongs. */
module MatrixUtils {
  import opened Geometry

  datatype Matrix3 = Matrix3(m0: real, m3: real, m6: real,
                             m1: real, m4: real, m7: real,
                             m2: real, m5: real, m8: real)

  /** raymath's 4x4 Matrix, entries m0 .. m15, column by column. */
  datatype Matrix = Matrix(m0: real, m4: real, m8: real, m12: real,
                           m1: real, m5: real, m9: real, m13: real,
                           m2: real, m6: real, m10: real, m14: real,
                           m3: real, m7: real, m11: real, m15: real)

  const Identity3: Matrix3 := Matrix3(1.0, 0.0, 0.0, 0.0, 1.0, 0.0, 0.0, 0.0, 1.0)

  const Identity: Matrix := Matrix(1.0, 0.0, 0.0, 0.0, 0.0, 1.0, 0.0, 0.0,
                                   0.0, 0.0, 1.0, 0.0, 0.0, 0.0, 0.0, 1.0)

  /** Matrix3Scale: the initialiser list follows the field order m0, m3, m6, m1, ... */
  function Matrix3Scale(x: real, y: real): Matrix3
  {
    Matrix3(x, 0.0, 0.0, 0.0, y, 0.0, 0.0, 0.0, 1.0)
  }

  function Matrix3Translate(x: real, y: real): Matrix3
  {
    Matrix3(1.0, 0.0, x, 0.0, 1.0, y, 0.0, 0.0, 1.0)
  }

  /** One output component of a 3x3 transform: a matrix row applied to v. */
  function Dot3(a: real, b: real, c: real, v: Vector3): real
  {
    a * v.x + b * v.y + c * v.z
  }

  function Vector3Transform(v: Vector3, m: Matrix3): Vector3
  {
    Vector3(Dot3(m.m0, m.m3, m.m6, v), Dot3(m.m1, m.m4, m.m7, v), Dot3(m.m2, m.m5, m.m8, v))
  }

  /** Matrix3Multiply as written: result.m2, m5 and m8 read right.m6. */
  function Matrix3MultiplyAsWritten(left: Matrix3, right: Matrix3): Matrix3
  {
    Matrix3(
      left.m0 * right.m0 + left.m1 * right.m3 + left.m2 * right.m6,
      left.m3 * right.m0 + left.m4 * right.m3 + left.m5 * right.m6,
      left.m6 * right.m0 + left.m7 * right.m3 + left.m8 * right.m6,
      left.m0 * right.m1 + left.m1 * right.m4 + left.m2 * right.m7,
      left.m3 * right.m1 + left.m4 * right.m4 + left.m5 * right.m7,
      left.m6 * right.m1 + left.m7 * right.m4 + left.m8 * right.m7,
      left.m0 * right.m2 + left.m1 * right.m6 + left.m2 * right.m8,
      left.m3 * right.m2 + left.m4 * right.m6 + left.m5 * right.m8,
      left.m6 * right.m2 + left.m7 * right.m6 + left.m8 * right.m8)
  }

  /** Matrix3Multiply as intended: right.m5 in the third row. */
  function Matrix3Multiply(left: Matrix3, right: Matrix3): Matrix3
  {
    Matrix3(
      left.m0 * right.m0 + left.m1 * right.m3 + left.m2 * right.m6,
      left.m3 * right.m0 + left.m4 * right.m3 + left.m5 * right.m6,
      left.m6 * right.m0 + left.m7 * right.m3 + left.m8 * right.m6,
      left.m0 * right.m1 + left.m1 * right.m4 + left.m2 * right.m7,
      left.m3 * right.m1 + left.m4 * right.m4 + left.m5 * right.m7,
      left.m6 * right.m1 + left.m7 * right.m4 + left.m8 * right.m7,
      left.m0 * right.m2 + left.m1 * right.m5 + left.m2 * right.m8,
      left.m3 * right.m2 + left.m4 * right.m5 + left.m5 * right.m8,
      left.m6 * right.m2 + left.m7 * right.m5 + left.m8 * right.m8)
  }

  /** A translation moves a homogeneous point (px, py, 1) by (x, y). */
  lemma TranslateMovesPoint(px: real, py: real, x: real, y: real)
    ensures Vector3Transform(Vector3(px, py, 1.0), Matrix3Translate(x, y)) == Vector3(px + x, py + y, 1.0)
  {
  }

  /** A scale multiplies a homogeneous point (px, py, 1) componentwise. */
  lemma ScaleScalesPoint(px: real, py: real, x: real, y: real)
    ensures Vector3Transform(Vector3(px, py, 1.0), Matrix3Scale(x, y)) == Vector3(x * px, y * py, 1.0)
  {
  }

  /** The identity on the right is neutral even as written. */
  lemma AsWrittenRightIdentity(m: Matrix3)
    ensures Matrix3MultiplyAsWritten(m, Identity3) == m
  {
  }

  /** As written, the identity on the left is not neutral: multiplying it by
      a translation by (1, 0) puts 1 in m5. */
  lemma AsWrittenLeftIdentityFails()
    ensures Matrix3MultiplyAsWritten(Identity3, Matrix3Translate(1.0, 0.0)).m5 == 1.0
    ensures Matrix3MultiplyAsWritten(Identity3, Matrix3Translate(1.0, 0.0)) != Matrix3Translate(1.0, 0.0)
  {
  }

  /** As written, composing does not apply one transform after the other:
      the point (0, 1, 1) under the identity then the translation by (1, 0)
      is (1, 1, 1), but under the product its third component is 2. */
  lemma AsWrittenCompositionFails()
    ensures Vector3Transform(Vector3Transform(Vector3(0.0, 1.0, 1.0), Identity3), Matrix3Translate(1.0, 0.0))
      == Vector3(1.0, 1.0, 1.0)
    ensures Vector3Transform(Vector3(0.0, 1.0, 1.0),
      Matrix3MultiplyAsWritten(Identity3, Matrix3Translate(1.0, 0.0))) == Vector3(1.0, 1.0, 2.0)
  {
    var v := Vector3(0.0, 1.0, 1.0);
    assert Vector3Transform(v, Identity3) == v;
    var product := Matrix3MultiplyAsWritten(Identity3, Matrix3Translate(1.0, 0.0));
    assert product == Matrix3(1.0, 0.0, 1.0, 0.0, 1.0, 0.0, 0.0, 1.0, 1.0);
    assert Dot3(0.0, 1.0, 1.0, v) == 2.0;
  }

  /** The corrected product has the identity as a unit on both sides. */
  lemma MultiplyIdentity(m: Matrix3)
    ensures Matrix3Multiply(m, Identity3) == m
    ensures Matrix3Multiply(Identity3, m) == m
  {
  }

  /** One output row of a composition, regrouped: the row of right applied
      to the column of products equals right's row applied to left v. */
  lemma Regroup(r0: real, r1: real, r2: real,
                a0: real, a1: real, a2: real,
                b0: real, b1: real, b2: real,
                c0: real, c1: real, c2: real, x: real, y: real, z: real)
    ensures (a0 * r0 + b0 * r1 + c0 * r2) * x + (a1 * r0 + b1 * r1 + c1 * r2) * y + (a2 * r0 + b2 * r1 + c2 * r2) * z
      == r0 * (a0 * x + a1 * y + a2 * z) + r1 * (b0 * x + b1 * y + b2 * z) + r2 * (c0 * x + c1 * y + c2 * z)
  {
    assert (a0 * r0 + b0 * r1 + c0 * r2) * x == r0 * (a0 * x) + r1 * (b0 * x) + r2 * (c0 * x);
    assert (a1 * r0 + b1 * r1 + c1 * r2) * y == r0 * (a1 * y) + r1 * (b1 * y) + r2 * (c1 * y);
    assert (a2 * r0 + b2 * r1 + c2 * r2) * z == r0 * (a2 * z) + r1 * (b2 * z) + r2 * (c2 * z);
  }

  /** The corrected product composes: transforming by Multiply(left, right)
      is transforming by left, then by right. */
  lemma MultiplyComposes(v: Vector3, left: Matrix3, right: Matrix3)
    ensures Vector3Transform(v, Matrix3Multiply(left, right))
      == Vector3Transform(Vector3Transform(v, left), right)
  {
    ComposeRow(right.m0, right.m3, right.m6, left, v);
    ComposeRow(right.m1, right.m4, right.m7, left, v);
    ComposeRow(right.m2, right.m5, right.m8, left, v);
  }

  /** One row of the composition: the row (r0, r1, r2) of right applied to
      left v, as the corresponding row of the product applied to v. */
  lemma ComposeRow(r0: real, r1: real, r2: real, left: Matrix3, v: Vector3)
    ensures Dot3(left.m0 * r0 + left.m1 * r1 + left.m2 * r2,
                 left.m3 * r0 + left.m4 * r1 + left.m5 * r2,
                 left.m6 * r0 + left.m7 * r1 + left.m8 * r2, v)
      == Dot3(r0, r1, r2, Vector3Transform(v, left))
  {
    Regroup(r0, r1, r2, left.m0, left.m3, left.m6, left.m1, left.m4, left.m7,
            left.m2, left.m5, left.m8, v.x, v.y, v.z);
  }

  /** One output component of a 4x4 transform: a matrix row applied to v. */
  function Dot4(a: real, b: real, c: real, d: real, v: Vector4): real
  {
    a * v.x + b * v.y + c * v.z + d * v.w
  }

  /** Vector4Transform of utils.h and Utils.h (the two agree): matrix * v. */
  function Vector4Transform(v: Vector4, m: Matrix): Vector4
  {
    Vector4(Dot4(m.m0, m.m4, m.m8, m.m12, v),
            Dot4(m.m1, m.m5, m.m9, m.m13, v),
            Dot4(m.m2, m.m6, m.m10, m.m14, v),
            Dot4(m.m3, m.m7, m.m11, m.m15, v))
  }

  function Add4(v: Vector4, w: Vector4): Vector4 { Vector4(v.x + w.x, v.y + w.y, v.z + w.z, v.w + w.w) }

  function Scale4(v: Vector4, k: real): Vector4 { Vector4(k * v.x, k * v.y, k * v.z, k * v.w) }

  lemma Vector4TransformIdentity(v: Vector4)
    ensures Vector4Transform(v, Identity) == v
  {
  }

  /** A row is linear in the vector. */
  lemma Dot4Additive(a: real, b: real, c: real, d: real, v: Vector4, w: Vector4)
    ensures Dot4(a, b, c, d, Add4(v, w)) == Dot4(a, b, c, d, v) + Dot4(a, b, c, d, w)
  {
  }

  lemma Dot4Homogeneous(a: real, b: real, c: real, d: real, v: Vector4, k: real)
    ensures Dot4(a, b, c, d, Scale4(v, k)) == k * Dot4(a, b, c, d, v)
  {
  }

  /** The transform is additive in the vector. */
  lemma Vector4TransformAdditive(v: Vector4, w: Vector4, m: Matrix)
    ensures Vector4Transform(Add4(v, w), m) == Add4(Vector4Transform(v, m), Vector4Transform(w, m))
  {
    Dot4Additive(m.m0, m.m4, m.m8, m.m12, v, w);
    Dot4Additive(m.m1, m.m5, m.m9, m.m13, v, w);
    Dot4Additive(m.m2, m.m6, m.m10, m.m14, v, w);
    Dot4Additive(m.m3, m.m7, m.m11, m.m15, v, w);
  }

  /** The transform commutes with scaling the vector. */
  lemma Vector4TransformHomogeneous(v: Vector4, k: real, m: Matrix)
    ensures Vector4Transform(Scale4(v, k), m) == Scale4(Vector4Transform(v, m), k)
  {
    Dot4Homogeneous(m.m0, m.m4, m.m8, m.m12, v, k);
    Dot4Homogeneous(m.m1, m.m5, m.m9, m.m13, v, k);
    Dot4Homogeneous(m.m2, m.m6, m.m10, m.m14, v, k);
    Dot4Homogeneous(m.m3, m.m7, m.m11, m.m15, v, k);
  }

  /** Vector4Lerp: a + amount (b - a), component by component. */
  function Vector4Lerp(a: Vector4, b: Vector4, amount: real): Vector4
  {
    Vector4(a.x + amount * (b.x - a.x), a.y + amount * (b.y - a.y),
            a.z + amount * (b.z - a.z), a.w + amount * (b.w - a.w))
  }

  /** Interpolation starts at a, ends at b, and stays put between equal points. */
  lemma Vector4LerpEnds(a: Vector4, b: Vector4, t: real)
    ensures Vector4Lerp(a, b, 0.0) == a && Vector4Lerp(a, b, 1.0) == b
    ensures Vector4Lerp(a, a, t) == a
  {
  }

  /** The interpolated point splits the way from a to b in the ratio t : 1 - t. */
  lemma Vector4LerpSplits(a: Vector4, b: Vector4, t: real)
    ensures Add4(Scale4(a, 1.0 - t), Scale4(b, t)) == Vector4Lerp(a, b, t)
  {
  }

  function Vector3Midpoint(a: Vector3, b: Vector3): Vector3
  {
    Vector3((a.x + b.x) / 2.0, (a.y + b.y) / 2.0, (a.z + b.z) / 2.0)
  }

  /** The midpoint is symmetric and equidistant: a and b are reflections of
      each other through it. */
  lemma Vector3MidpointProperties(a: Vector3, b: Vector3)
    ensures Vector3Midpoint(a, b) == Vector3Midpoint(b, a)
    ensures var m := Vector3Midpoint(a, b);
      m.x - a.x == b.x - m.x && m.y - a.y == b.y - m.y && m.z - a.z == b.z - m.z
    ensures Vector3Midpoint(a, a) == a
  {
  }
}
