/** What the extrinsic matrix stored by `CalibrateCamera` is when the
    axis-angle expansion yields a rotation: the composed model-view matrix
    is then always invertible, and any correct `Inverse()` returns the
    closed form `CameraToObject` below, whose last row carries the camera
    centre `-Rᵀ t` in the calibration convention. */
module ExtrinsicInverse {
  import opened SoyMath
  import opened CameraCalibration

  /** The dot product of rows `i` and `j` of a 3×3 matrix. */
  function RowDot(r: Mat3, i: nat, j: nat): real
    requires i < 3 && j < 3
  {
    r[i][0] * r[j][0] + r[i][1] * r[j][1] + r[i][2] * r[j][2]
  }

  /** The dot product of columns `i` and `j` of a 3×3 matrix. */
  function ColumnDot(r: Mat3, i: nat, j: nat): real
    requires i < 3 && j < 3
  {
    r[0][i] * r[0][j] + r[1][i] * r[1][j] + r[2][i] * r[2][j]
  }

  /** `R · Rᵀ = I`. */
  predicate RowsOrthonormal(r: Mat3) {
    forall i, j :: 0 <= i < 3 && 0 <= j < 3 ==> RowDot(r, i, j) == (if i == j then 1.0 else 0.0)
  }

  /** `Rᵀ · R = I`. */
  predicate ColumnsOrthonormal(r: Mat3) {
    forall i, j :: 0 <= i < 3 && 0 <= j < 3 ==> ColumnDot(r, i, j) == (if i == j then 1.0 else 0.0)
  }

  /** `Rᵀ · t`: the translation carried back through the rotation. */
  function RotateBack(r: Mat3, t: Vec3): Vec3 {
    Vec3(r[0][0] * t.x + r[1][0] * t.y + r[2][0] * t.z,
         r[0][1] * t.x + r[1][1] * t.y + r[2][1] * t.z,
         r[0][2] * t.x + r[1][2] * t.y + r[2][2] * t.z)
  }

  /** The camera-relative-to-object matrix: the rotation with its second and
      third rows exchanged and negated, and `-Rᵀ t` as the last row. */
  function CameraToObject(r: Mat3, t: Vec3): Mat4 {
    var u := RotateBack(r, t);
    [[r[0][0], r[0][1], r[0][2], 0.0],
     [-r[2][0], -r[2][1], -r[2][2], 0.0],
     [-r[1][0], -r[1][1], -r[1][2], 0.0],
     [-u.x, -u.y, -u.z, 1.0]]
  }

  /** With orthonormal rows, `R · (Rᵀ t) = t`. */
  lemma {:induction false} RotateBackUndone(r: Mat3, t: Vec3)
    requires RowsOrthonormal(r)
    ensures var u := RotateBack(r, t);
      && u.x * r[0][0] + u.y * r[0][1] + u.z * r[0][2] == t.x
      && u.x * r[1][0] + u.y * r[1][1] + u.z * r[1][2] == t.y
      && u.x * r[2][0] + u.y * r[2][1] + u.z * r[2][2] == t.z
  {
    var r00, r01, r02, r10, r11, r12, r20, r21, r22 := r[0][0], r[0][1], r[0][2], r[1][0], r[1][1], r[1][2], r[2][0], r[2][1], r[2][2];
    var tx, ty, tz := t.x, t.y, t.z;
    var u := RotateBack(r, t);
    OrthonormalEntries(r);
    RotateBackRow(r00, r01, r02, r10, r11, r12, r20, r21, r22, tx, ty, tz, u.x, u.y, u.z, r00, r01, r02, 1.0, 0.0, 0.0, tx);
    RotateBackRow(r00, r01, r02, r10, r11, r12, r20, r21, r22, tx, ty, tz, u.x, u.y, u.z, r10, r11, r12, 0.0, 1.0, 0.0, ty);
    RotateBackRow(r00, r01, r02, r10, r11, r12, r20, r21, r22, tx, ty, tz, u.x, u.y, u.z, r20, r21, r22, 0.0, 0.0, 1.0, tz);
  }

  /** The nine row dot products of an orthonormal matrix, entry by entry. */
  lemma OrthonormalEntries(r: Mat3)
    requires RowsOrthonormal(r)
    ensures r[0][0] * r[0][0] + r[0][1] * r[0][1] + r[0][2] * r[0][2] == 1.0
    ensures r[1][0] * r[0][0] + r[1][1] * r[0][1] + r[1][2] * r[0][2] == 0.0
    ensures r[2][0] * r[0][0] + r[2][1] * r[0][1] + r[2][2] * r[0][2] == 0.0
    ensures r[0][0] * r[1][0] + r[0][1] * r[1][1] + r[0][2] * r[1][2] == 0.0
    ensures r[1][0] * r[1][0] + r[1][1] * r[1][1] + r[1][2] * r[1][2] == 1.0
    ensures r[2][0] * r[1][0] + r[2][1] * r[1][1] + r[2][2] * r[1][2] == 0.0
    ensures r[0][0] * r[2][0] + r[0][1] * r[2][1] + r[0][2] * r[2][2] == 0.0
    ensures r[1][0] * r[2][0] + r[1][1] * r[2][1] + r[1][2] * r[2][2] == 0.0
    ensures r[2][0] * r[2][0] + r[2][1] * r[2][1] + r[2][2] * r[2][2] == 1.0
  {
    assert RowDot(r, 0, 0) == 1.0 && RowDot(r, 1, 0) == 0.0 && RowDot(r, 2, 0) == 0.0;
    assert RowDot(r, 0, 1) == 0.0 && RowDot(r, 1, 1) == 1.0 && RowDot(r, 2, 1) == 0.0;
    assert RowDot(r, 0, 2) == 0.0 && RowDot(r, 1, 2) == 0.0 && RowDot(r, 2, 2) == 1.0;
  }

  /** `(Rᵀ t) · a` regrouped as the rows' dot products `d` with `a`, weighted
      by `t`. */
  lemma RotateBackRow(r00: real, r01: real, r02: real, r10: real, r11: real, r12: real, r20: real, r21: real, r22: real, tx: real, ty: real, tz: real,
                      u0: real, u1: real, u2: real,
                      a0: real, a1: real, a2: real, d0: real, d1: real, d2: real, e: real)
    requires u0 == r00 * tx + r10 * ty + r20 * tz
    requires u1 == r01 * tx + r11 * ty + r21 * tz
    requires u2 == r02 * tx + r12 * ty + r22 * tz
    requires d0 == r00 * a0 + r01 * a1 + r02 * a2
    requires d1 == r10 * a0 + r11 * a1 + r12 * a2
    requires d2 == r20 * a0 + r21 * a1 + r22 * a2
    requires tx * d0 + ty * d1 + tz * d2 == e
    ensures u0 * a0 + u1 * a1 + u2 * a2 == e
  {
  }

  /** `CameraToObject` undoes the composed model-view matrix from the left
      whenever the rotation's rows are orthonormal. */
  lemma {:induction false} ClosedFormIsLeftInverse(r: Mat3, t: Vec3)
    requires RowsOrthonormal(r)
    ensures Mul(CameraToObject(r, t), ComposedModelView(r, t)) == Eye(4, 4)
  {
    var s, m := CameraToObject(r, t), ComposedModelView(r, t);
    ComposedModelViewLayout(r, t);
    LeftInverseRow0(r, t, s, m);
    LeftInverseRow1(r, t, s, m);
    LeftInverseRow2(r, t, s, m);
    LeftInverseRow3(r, t, s, m);
  }

  /** ... and from the right whenever its columns are orthonormal, so the
      inversion in `CalibrateCamera` never meets a singular matrix. */
  lemma {:induction false} ClosedFormIsRightInverse(r: Mat3, t: Vec3)
    requires ColumnsOrthonormal(r)
    ensures Mul(ComposedModelView(r, t), CameraToObject(r, t)) == Eye(4, 4)
  {
    var s, m := CameraToObject(r, t), ComposedModelView(r, t);
    ComposedModelViewLayout(r, t);
    RightInverseRow0(r, t, s, m);
    RightInverseRow1(r, t, s, m);
    RightInverseRow2(r, t, s, m);
    RightInverseRow3(r, t, s, m);
  }

  /** Entry `(i, j)` of a product whose row `i` is `(a0, a1, a2, 0)` on the
      left and whose column `j` is `(b0, b1, b2, x)` on the right. */
  lemma {:induction false} LeftEntry(s: Mat4, m: Mat4, i: nat, j: nat,
                                     a0: real, a1: real, a2: real, b0: real, b1: real, b2: real, x: real)
    requires i < 4 && j < 4
    requires s[i] == [a0, a1, a2, 0.0]
    requires m[0][j] == b0 && m[1][j] == b1 && m[2][j] == b2 && m[3][j] == x
    ensures Mul(s, m)[i][j] == a0 * b0 + a1 * b1 + a2 * b2
  {
    Mul4EntryOf(s, m, i, j, a0, a1, a2, 0.0, b0, b1, b2, x);
  }

  lemma NegatedLeft(a0: real, a1: real, a2: real, b0: real, b1: real, b2: real)
    ensures (-a0) * b0 + (-a1) * b1 + (-a2) * b2 == -(a0 * b0 + a1 * b1 + a2 * b2)
  {
  }

  lemma NegatedRight(a0: real, a1: real, a2: real, b0: real, b1: real, b2: real)
    ensures a0 * (-b0) + a1 * (-b1) + a2 * (-b2) == -(a0 * b0 + a1 * b1 + a2 * b2)
  {
  }

  lemma NegatedBoth(a0: real, a1: real, a2: real, b0: real, b1: real, b2: real)
    ensures (-a0) * (-b0) + (-a1) * (-b1) + (-a2) * (-b2) == a0 * b0 + a1 * b1 + a2 * b2
  {
  }

  lemma {:induction false} LeftInverseRow0(r: Mat3, t: Vec3, s: Mat4, m: Mat4)
    requires RowsOrthonormal(r)
    requires s == CameraToObject(r, t)
    requires m == ModelViewClosedForm(r, t)
    ensures Mul(s, m)[0] == Eye(4, 4)[0]
  {
    var a0, a1, a2 := r[0][0], r[0][1], r[0][2];
    LeftEntry(s, m, 0, 0, a0, a1, a2, r[0][0], r[0][1], r[0][2], m[3][0]);
    LeftEntry(s, m, 0, 1, a0, a1, a2, -r[2][0], -r[2][1], -r[2][2], m[3][1]);
    NegatedRight(r[0][0], r[0][1], r[0][2], r[2][0], r[2][1], r[2][2]);
    LeftEntry(s, m, 0, 2, a0, a1, a2, -r[1][0], -r[1][1], -r[1][2], m[3][2]);
    NegatedRight(r[0][0], r[0][1], r[0][2], r[1][0], r[1][1], r[1][2]);
    LeftEntry(s, m, 0, 3, a0, a1, a2, 0.0, 0.0, 0.0, 1.0);
    assert RowDot(r, 0, 0) == 1.0 && RowDot(r, 0, 2) == 0.0 && RowDot(r, 0, 1) == 0.0;
    assert Mul(s, m)[0][0] == 1.0;
    assert Mul(s, m)[0][1] == 0.0;
    assert Mul(s, m)[0][2] == 0.0;
    assert Mul(s, m)[0][3] == 0.0;
    assert |Mul(s, m)[0]| == 4;
    assert Mul(s, m)[0] == [1.0, 0.0, 0.0, 0.0];
  }

  lemma {:induction false} LeftInverseRow1(r: Mat3, t: Vec3, s: Mat4, m: Mat4)
    requires RowsOrthonormal(r)
    requires s == CameraToObject(r, t)
    requires m == ModelViewClosedForm(r, t)
    ensures Mul(s, m)[1] == Eye(4, 4)[1]
  {
    var a0, a1, a2 := -r[2][0], -r[2][1], -r[2][2];
    LeftEntry(s, m, 1, 0, a0, a1, a2, r[0][0], r[0][1], r[0][2], m[3][0]);
    NegatedLeft(r[2][0], r[2][1], r[2][2], r[0][0], r[0][1], r[0][2]);
    LeftEntry(s, m, 1, 1, a0, a1, a2, -r[2][0], -r[2][1], -r[2][2], m[3][1]);
    NegatedBoth(r[2][0], r[2][1], r[2][2], r[2][0], r[2][1], r[2][2]);
    LeftEntry(s, m, 1, 2, a0, a1, a2, -r[1][0], -r[1][1], -r[1][2], m[3][2]);
    NegatedBoth(r[2][0], r[2][1], r[2][2], r[1][0], r[1][1], r[1][2]);
    LeftEntry(s, m, 1, 3, a0, a1, a2, 0.0, 0.0, 0.0, 1.0);
    assert RowDot(r, 2, 0) == 0.0 && RowDot(r, 2, 2) == 1.0 && RowDot(r, 2, 1) == 0.0;
    assert Mul(s, m)[1][0] == 0.0;
    assert Mul(s, m)[1][1] == 1.0;
    assert Mul(s, m)[1][2] == 0.0;
    assert Mul(s, m)[1][3] == 0.0;
    assert |Mul(s, m)[1]| == 4;
    assert Mul(s, m)[1] == [0.0, 1.0, 0.0, 0.0];
  }

  lemma {:induction false} LeftInverseRow2(r: Mat3, t: Vec3, s: Mat4, m: Mat4)
    requires RowsOrthonormal(r)
    requires s == CameraToObject(r, t)
    requires m == ModelViewClosedForm(r, t)
    ensures Mul(s, m)[2] == Eye(4, 4)[2]
  {
    var a0, a1, a2 := -r[1][0], -r[1][1], -r[1][2];
    LeftEntry(s, m, 2, 0, a0, a1, a2, r[0][0], r[0][1], r[0][2], m[3][0]);
    NegatedLeft(r[1][0], r[1][1], r[1][2], r[0][0], r[0][1], r[0][2]);
    LeftEntry(s, m, 2, 1, a0, a1, a2, -r[2][0], -r[2][1], -r[2][2], m[3][1]);
    NegatedBoth(r[1][0], r[1][1], r[1][2], r[2][0], r[2][1], r[2][2]);
    LeftEntry(s, m, 2, 2, a0, a1, a2, -r[1][0], -r[1][1], -r[1][2], m[3][2]);
    NegatedBoth(r[1][0], r[1][1], r[1][2], r[1][0], r[1][1], r[1][2]);
    LeftEntry(s, m, 2, 3, a0, a1, a2, 0.0, 0.0, 0.0, 1.0);
    assert RowDot(r, 1, 0) == 0.0 && RowDot(r, 1, 2) == 0.0 && RowDot(r, 1, 1) == 1.0;
    assert Mul(s, m)[2][0] == 0.0;
    assert Mul(s, m)[2][1] == 0.0;
    assert Mul(s, m)[2][2] == 1.0;
    assert Mul(s, m)[2][3] == 0.0;
    assert |Mul(s, m)[2]| == 4;
    assert Mul(s, m)[2] == [0.0, 0.0, 1.0, 0.0];
  }

  /** Entry `(3, j)` of a product whose last row is `(-u, 1)` on the left
      and whose column `j` is `(b, c)` with `u · b = c` on the right. */
  lemma {:induction false} LastRowEntry(s: Mat4, m: Mat4, j: nat, u0: real, u1: real, u2: real,
                                        b0: real, b1: real, b2: real, c: real)
    requires j < 4
    requires s[3] == [-u0, -u1, -u2, 1.0]
    requires m[0][j] == b0 && m[1][j] == b1 && m[2][j] == b2 && m[3][j] == c
    requires u0 * b0 + u1 * b1 + u2 * b2 == c
    ensures Mul(s, m)[3][j] == 0.0
  {
    Mul4EntryOf(s, m, 3, j, -u0, -u1, -u2, 1.0, b0, b1, b2, c);
    NegatedCombination(u0, u1, u2, b0, b1, b2, c);
  }

  lemma {:induction false} LeftInverseRow3(r: Mat3, t: Vec3, s: Mat4, m: Mat4)
    requires RowsOrthonormal(r)
    requires s == CameraToObject(r, t)
    requires m == ModelViewClosedForm(r, t)
    ensures Mul(s, m)[3] == Eye(4, 4)[3]
  {
    LastRowColumns(r, t, s, m);
    var u := RotateBack(r, t);
    Mul4EntryOf(s, m, 3, 3, -u.x, -u.y, -u.z, 1.0, 0.0, 0.0, 0.0, 1.0);
    assert Mul(s, m)[3][3] == 1.0;
    assert |Mul(s, m)[3]| == 4;
    assert Mul(s, m)[3] == [0.0, 0.0, 0.0, 1.0];
  }

  /** The first three entries of the last row of `CameraToObject · M`
      vanish because `Rᵀ t` carried forward through `R` gives back `t`. */
  lemma {:induction false} LastRowColumns(r: Mat3, t: Vec3, s: Mat4, m: Mat4)
    requires RowsOrthonormal(r)
    requires s == CameraToObject(r, t)
    requires m == ModelViewClosedForm(r, t)
    ensures Mul(s, m)[3][0] == 0.0 && Mul(s, m)[3][1] == 0.0 && Mul(s, m)[3][2] == 0.0
  {
    LastRowColumn0(r, t, s, m);
    LastRowColumn1(r, t, s, m);
    LastRowColumn2(r, t, s, m);
  }

  lemma {:induction false} LastRowColumn0(r: Mat3, t: Vec3, s: Mat4, m: Mat4)
    requires RowsOrthonormal(r)
    requires s == CameraToObject(r, t)
    requires m == ModelViewClosedForm(r, t)
    ensures Mul(s, m)[3][0] == 0.0
  {
    var r00, r01, r02, r10, r11, r12, r20, r21, r22 := r[0][0], r[0][1], r[0][2], r[1][0], r[1][1], r[1][2], r[2][0], r[2][1], r[2][2];
    var tx, ty, tz := t.x, t.y, t.z;
    var u := RotateBack(r, t);
    var u0, u1, u2 := u.x, u.y, u.z;
    OrthonormalEntries(r);
    RotateBackRow(r00, r01, r02, r10, r11, r12, r20, r21, r22, tx, ty, tz, u0, u1, u2, r00, r01, r02, 1.0, 0.0, 0.0, tx);
    LastRowEntry(s, m, 0, u0, u1, u2, r00, r01, r02, tx);
  }

  lemma {:induction false} LastRowColumn1(r: Mat3, t: Vec3, s: Mat4, m: Mat4)
    requires RowsOrthonormal(r)
    requires s == CameraToObject(r, t)
    requires m == ModelViewClosedForm(r, t)
    ensures Mul(s, m)[3][1] == 0.0
  {
    var r00, r01, r02, r10, r11, r12, r20, r21, r22 := r[0][0], r[0][1], r[0][2], r[1][0], r[1][1], r[1][2], r[2][0], r[2][1], r[2][2];
    var tx, ty, tz := t.x, t.y, t.z;
    var u := RotateBack(r, t);
    var u0, u1, u2 := u.x, u.y, u.z;
    OrthonormalEntries(r);
    RotateBackRow(r00, r01, r02, r10, r11, r12, r20, r21, r22, tx, ty, tz, u0, u1, u2, r20, r21, r22, 0.0, 0.0, 1.0, tz);
    NegatedWeights(u0, u1, u2, r20, r21, r22, tz);
    LastRowEntry(s, m, 1, u0, u1, u2, -r20, -r21, -r22, -tz);
  }

  lemma {:induction false} LastRowColumn2(r: Mat3, t: Vec3, s: Mat4, m: Mat4)
    requires RowsOrthonormal(r)
    requires s == CameraToObject(r, t)
    requires m == ModelViewClosedForm(r, t)
    ensures Mul(s, m)[3][2] == 0.0
  {
    var r00, r01, r02, r10, r11, r12, r20, r21, r22 := r[0][0], r[0][1], r[0][2], r[1][0], r[1][1], r[1][2], r[2][0], r[2][1], r[2][2];
    var tx, ty, tz := t.x, t.y, t.z;
    var u := RotateBack(r, t);
    var u0, u1, u2 := u.x, u.y, u.z;
    OrthonormalEntries(r);
    RotateBackRow(r00, r01, r02, r10, r11, r12, r20, r21, r22, tx, ty, tz, u0, u1, u2, r10, r11, r12, 0.0, 1.0, 0.0, ty);
    NegatedWeights(u0, u1, u2, r10, r11, r12, ty);
    LastRowEntry(s, m, 2, u0, u1, u2, -r10, -r11, -r12, -ty);
  }

  lemma NegatedWeights(a0: real, a1: real, a2: real, b0: real, b1: real, b2: real, c: real)
    requires a0 * b0 + a1 * b1 + a2 * b2 == c
    ensures a0 * (-b0) + a1 * (-b1) + a2 * (-b2) == -c
  {
  }

  lemma NegatedCombination(a0: real, a1: real, a2: real, b0: real, b1: real, b2: real, c: real)
    requires a0 * b0 + a1 * b1 + a2 * b2 == c
    ensures (-a0) * b0 + (-a1) * b1 + (-a2) * b2 + 1.0 * c == 0.0
  {
  }

  lemma {:induction false} RightInverseRow0(r: Mat3, t: Vec3, s: Mat4, m: Mat4)
    requires ColumnsOrthonormal(r)
    requires s == CameraToObject(r, t)
    requires m == ModelViewClosedForm(r, t)
    ensures Mul(m, s)[0] == Eye(4, 4)[0]
  {
    assert ColumnDot(r, 0, 0) == 1.0;
    assert ColumnDot(r, 0, 1) == 0.0;
    assert ColumnDot(r, 0, 2) == 0.0;
    Mul4Entry(m, s, 0, 0);
    assert Mul(m, s)[0][0] == 1.0;
    Mul4Entry(m, s, 0, 1);
    assert Mul(m, s)[0][1] == 0.0;
    Mul4Entry(m, s, 0, 2);
    assert Mul(m, s)[0][2] == 0.0;
    Mul4Entry(m, s, 0, 3);
    assert Mul(m, s)[0][3] == 0.0;
  }

  lemma {:induction false} RightInverseRow1(r: Mat3, t: Vec3, s: Mat4, m: Mat4)
    requires ColumnsOrthonormal(r)
    requires s == CameraToObject(r, t)
    requires m == ModelViewClosedForm(r, t)
    ensures Mul(m, s)[1] == Eye(4, 4)[1]
  {
    assert ColumnDot(r, 1, 0) == 0.0;
    assert ColumnDot(r, 1, 1) == 1.0;
    assert ColumnDot(r, 1, 2) == 0.0;
    Mul4Entry(m, s, 1, 0);
    assert Mul(m, s)[1][0] == 0.0;
    Mul4Entry(m, s, 1, 1);
    assert Mul(m, s)[1][1] == 1.0;
    Mul4Entry(m, s, 1, 2);
    assert Mul(m, s)[1][2] == 0.0;
    Mul4Entry(m, s, 1, 3);
    assert Mul(m, s)[1][3] == 0.0;
  }

  lemma {:induction false} RightInverseRow2(r: Mat3, t: Vec3, s: Mat4, m: Mat4)
    requires ColumnsOrthonormal(r)
    requires s == CameraToObject(r, t)
    requires m == ModelViewClosedForm(r, t)
    ensures Mul(m, s)[2] == Eye(4, 4)[2]
  {
    assert ColumnDot(r, 2, 0) == 0.0;
    assert ColumnDot(r, 2, 1) == 0.0;
    assert ColumnDot(r, 2, 2) == 1.0;
    Mul4Entry(m, s, 2, 0);
    assert Mul(m, s)[2][0] == 0.0;
    Mul4Entry(m, s, 2, 1);
    assert Mul(m, s)[2][1] == 0.0;
    Mul4Entry(m, s, 2, 2);
    assert Mul(m, s)[2][2] == 1.0;
    Mul4Entry(m, s, 2, 3);
    assert Mul(m, s)[2][3] == 0.0;
  }

  lemma {:induction false} RightInverseRow3(r: Mat3, t: Vec3, s: Mat4, m: Mat4)
    requires ColumnsOrthonormal(r)
    requires s == CameraToObject(r, t)
    requires m == ModelViewClosedForm(r, t)
    ensures Mul(m, s)[3] == Eye(4, 4)[3]
  {
    Mul4Entry(m, s, 3, 0);
    assert Mul(m, s)[3][0] == 0.0;
    Mul4Entry(m, s, 3, 1);
    assert Mul(m, s)[3][1] == 0.0;
    Mul4Entry(m, s, 3, 2);
    assert Mul(m, s)[3][2] == 0.0;
    Mul4Entry(m, s, 3, 3);
    assert Mul(m, s)[3][3] == 1.0;
  }

  /** If the expansion of the solver's rotation vector has orthonormal rows
      and `Inverse()` returns a right inverse of what it is given, the
      stored extrinsic matrix is exactly `CameraToObject`. */
  lemma {:induction false} StoredExtrinsicIsCameraToObject(ext: Externals, rotation: Vec3, translation: Vec3)
    requires RowsOrthonormal(ext.rodrigues(rotation))
    requires var m := ComposedModelView(ext.rodrigues(rotation), translation);
      Mul(m, ext.inverse(m)) == Eye(4, 4)
    ensures ExtrinsicMatrix(ext, rotation, translation) == CameraToObject(ext.rodrigues(rotation), translation)
  {
    var r := ext.rodrigues(rotation);
    var m := ComposedModelView(r, translation);
    var s := CameraToObject(r, translation);
    var x := ext.inverse(m);
    ClosedFormIsLeftInverse(r, translation);
    MulAssoc4(s, m, x);
    MulIdentity4(x);
    MulIdentity4(s);
    calc {
      x;
      Mul(Eye(4, 4), x);
      Mul(Mul(s, m), x);
      Mul(s, Mul(m, x));
      Mul(s, Eye(4, 4));
      s;
    }
  }
}
