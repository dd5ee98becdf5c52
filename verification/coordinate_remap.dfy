/** The fixed axis permutation between the world convention (x, y up,
    z forward) and the calibration convention (x, y forward, z up).

    Points are multiplied as homogeneous columns `(x, y, z, 1)`, and the
    first three components of the product are the remapped point. */
module CoordinateRemap {
  import opened SoyMath

  /** `gWorldToCalibration`: swaps the Y and Z rows, no scale, no translation. */
  function WorldToCalibrationMatrix(): Mat4 {
    [[1.0, 0.0, 0.0, 0.0],
     [0.0, 0.0, 1.0, 0.0],
     [0.0, 1.0, 0.0, 0.0],
     [0.0, 0.0, 0.0, 1.0]]
  }

  /** `gWorldToCalibration.Inverse()`. The inverse of a permutation matrix is
      its transpose; `CalibrationToWorldIsInverse` and `InverseIsUnique` show
      that this is the one matrix any correct inversion returns. */
  function CalibrationToWorldMatrix(): Mat4 {
    Transpose(WorldToCalibrationMatrix())
  }

  /** The homogeneous column `(x, y, z, 1)` of a point. */
  function Homogeneous(v: Vec3): (h: Matrix)
    ensures IsMatrix(h, 4, 1)
  {
    [[v.x], [v.y], [v.z], [1.0]]
  }

  /** Left-multiplying by the permutation exchanges rows 1 and 2 of any
      matrix with four rows. */
  lemma {:induction false} SwapsRows(x: Matrix)
    requires IsMatrix(x, 4, Width(x))
    ensures Mul(WorldToCalibrationMatrix(), x) == [x[0], x[2], x[1], x[3]]
  {
    var p := WorldToCalibrationMatrix();
    Mul4Entries(p, x);
    forall i | 0 <= i < 4
      ensures Mul(p, x)[i] == [x[0], x[2], x[1], x[3]][i]
    {
    }
  }

  /** Right-multiplying by the permutation exchanges columns 1 and 2 of any
      matrix with four columns. */
  lemma {:induction false} SwapsColumns(x: Matrix)
    requires IsMatrix(x, |x|, 4)
    ensures IsMatrix(Mul(x, WorldToCalibrationMatrix()), |x|, 4)
    ensures forall i :: 0 <= i < |x| ==>
      Mul(x, WorldToCalibrationMatrix())[i] == [x[i][0], x[i][2], x[i][1], x[i][3]]
  {
    var p := WorldToCalibrationMatrix();
    Mul4Entries(x, p);
    forall i | 0 <= i < |x|
      ensures Mul(x, p)[i] == [x[i][0], x[i][2], x[i][1], x[i][3]]
    {
    }
  }

  /** The permutation is symmetric, so its meaning does not depend on
      whether the sixteen constructor arguments are read row- or
      column-major; and it is its own inverse. */
  lemma {:induction false} RemapIsSymmetricInvolution()
    ensures Transpose(WorldToCalibrationMatrix()) == WorldToCalibrationMatrix()
    ensures CalibrationToWorldMatrix() == WorldToCalibrationMatrix()
    ensures Mul(WorldToCalibrationMatrix(), WorldToCalibrationMatrix()) == Eye(4, 4)
  {
    var p := WorldToCalibrationMatrix();
    var t := Transpose(p);
    assert forall i :: 0 <= i < 4 ==> t[i] == p[i];
    SwapsRows(p);
    assert forall i :: 0 <= i < 4 ==> [p[0], p[2], p[1], p[3]][i] == Eye(4, 4)[i];
  }

  /** `CalibrationToWorldMatrix` undoes `WorldToCalibrationMatrix` on both sides. */
  lemma {:induction false} CalibrationToWorldIsInverse()
    ensures Mul(WorldToCalibrationMatrix(), CalibrationToWorldMatrix()) == Eye(4, 4)
    ensures Mul(CalibrationToWorldMatrix(), WorldToCalibrationMatrix()) == Eye(4, 4)
  {
    RemapIsSymmetricInvolution();
  }

  /** No other matrix inverts the permutation, from either side: whatever a
      correct `Inverse()` computes is `CalibrationToWorldMatrix`. */
  lemma {:induction false} InverseIsUnique(x: Mat4)
    ensures Mul(WorldToCalibrationMatrix(), x) == Eye(4, 4) ==> x == CalibrationToWorldMatrix()
    ensures Mul(x, WorldToCalibrationMatrix()) == Eye(4, 4) ==> x == CalibrationToWorldMatrix()
  {
    RemapIsSymmetricInvolution();
    if Mul(WorldToCalibrationMatrix(), x) == Eye(4, 4) {
      RightInverseIsPermutation(x);
    }
    if Mul(x, WorldToCalibrationMatrix()) == Eye(4, 4) {
      LeftInverseIsPermutation(x);
    }
  }

  lemma {:induction false} RightInverseIsPermutation(x: Mat4)
    requires Mul(WorldToCalibrationMatrix(), x) == Eye(4, 4)
    ensures x == WorldToCalibrationMatrix()
  {
    var p, e := WorldToCalibrationMatrix(), Eye(4, 4);
    SwapsRows(x);
    assert [x[0], x[2], x[1], x[3]] == e;
    assert x[0] == e[0] && x[2] == e[1] && x[1] == e[2] && x[3] == e[3];
    assert x[0] == p[0] && x[1] == p[1] && x[2] == p[2] && x[3] == p[3];
  }

  lemma {:induction false} LeftInverseIsPermutation(x: Mat4)
    requires Mul(x, WorldToCalibrationMatrix()) == Eye(4, 4)
    ensures x == WorldToCalibrationMatrix()
  {
    var p, e := WorldToCalibrationMatrix(), Eye(4, 4);
    SwapsColumns(x);
    forall i | 0 <= i < 4
      ensures x[i] == p[i]
    {
      assert [x[i][0], x[i][2], x[i][1], x[i][3]] == e[i];
      assert x[i] == [x[i][0], x[i][1], x[i][2], x[i][3]];
      assert e[i] == [if i == 0 then 1.0 else 0.0, if i == 1 then 1.0 else 0.0,
                      if i == 2 then 1.0 else 0.0, if i == 3 then 1.0 else 0.0];
    }
  }

  /** `WorldToCalibration`: the world point `(x, y, z)` is `(x, z, y)` in the
      calibration convention. */
  function WorldToCalibration(position: Vec3): (r: Vec3)
    ensures r == Vec3(position.x, position.z, position.y)
  {
    var h := Homogeneous(position);
    SwapsRows(h);
    var calib := Mul(WorldToCalibrationMatrix(), h);
    Vec3(calib[0][0], calib[1][0], calib[2][0])
  }

  /** `CalibrationToWorld`: the calibration point `(x, y, z)` is `(x, z, y)`
      in the world convention. */
  function CalibrationToWorld(position: Vec3): (r: Vec3)
    ensures r == Vec3(position.x, position.z, position.y)
  {
    var h := Homogeneous(position);
    RemapIsSymmetricInvolution();
    SwapsRows(h);
    var world := Mul(CalibrationToWorldMatrix(), h);
    Vec3(world[0][0], world[1][0], world[2][0])
  }

  /** The two conversions are exact inverses of each other. */
  lemma RoundTrip(v: Vec3)
    ensures CalibrationToWorld(WorldToCalibration(v)) == v
    ensures WorldToCalibration(CalibrationToWorld(v)) == v
  {
  }
}
