/** The vector and matrix vocabulary of SoyMath and OpenCV that the
    calibration code relies on. Floating point is modelled by `real`.

    Convention: `m[r][c]` is the entry in row `r`, column `c`, and the
    product `Mul(a, b)` is the ordinary row-by-column product. */
module SoyMath {

  datatype Vec2 = Vec2(x: real, y: real)
  datatype Vec3 = Vec3(x: real, y: real, z: real)

  type Matrix = seq<seq<real>>

  predicate IsMatrix(m: Matrix, rows: nat, cols: nat) {
    |m| == rows && forall i :: 0 <= i < rows ==> |m[i]| == cols
  }

  type Mat3 = m: Matrix | IsMatrix(m, 3, 3)
    witness [[1.0, 0.0, 0.0], [0.0, 1.0, 0.0], [0.0, 0.0, 1.0]]

  type Mat4 = m: Matrix | IsMatrix(m, 4, 4)
    witness [[1.0, 0.0, 0.0, 0.0], [0.0, 1.0, 0.0, 0.0], [0.0, 0.0, 1.0, 0.0], [0.0, 0.0, 0.0, 1.0]]

  /** Number of columns of a matrix (that of its first row). */
  function Width(m: Matrix): nat {
    if |m| == 0 then 0 else |m[0]|
  }

  /** `cv::Mat::eye(rows, cols)`: ones on the main diagonal, zeros elsewhere. */
  function Eye(rows: nat, cols: nat): (m: Matrix)
    ensures IsMatrix(m, rows, cols)
  {
    seq(rows, i => seq(cols, j => if i == j then 1.0 else 0.0))
  }

  /** `cv::Mat::zeros(rows, cols)`. */
  function Zeros(rows: nat, cols: nat): (m: Matrix)
    ensures IsMatrix(m, rows, cols)
    ensures forall i, j :: 0 <= i < rows && 0 <= j < cols ==> m[i][j] == 0.0
  {
    seq(rows, i => seq(cols, j => 0.0))
  }

  function Transpose(m: Matrix): (t: Matrix)
    requires IsMatrix(m, |m|, Width(m))
    ensures IsMatrix(t, Width(m), |m|)
    ensures forall r, c :: 0 <= r < Width(m) && 0 <= c < |m| ==> t[r][c] == m[c][r]
  {
    seq(Width(m), c requires 0 <= c < Width(m) => seq(|m|, r requires 0 <= r < |m| => m[r][c]))
  }

  function Dot(u: seq<real>, v: seq<real>): real
    requires |u| == |v|
  {
    if |u| == 0 then 0.0 else u[0] * v[0] + Dot(u[1..], v[1..])
  }

  function Column(m: Matrix, j: nat): (col: seq<real>)
    requires forall i :: 0 <= i < |m| ==> j < |m[i]|
    ensures |col| == |m|
  {
    seq(|m|, i requires 0 <= i < |m| => m[i][j])
  }

  /** The row-by-column product `a · b`. */
  function Mul(a: Matrix, b: Matrix): (c: Matrix)
    requires IsMatrix(a, |a|, |b|) && IsMatrix(b, |b|, Width(b))
    ensures IsMatrix(c, |a|, Width(b))
  {
    seq(|a|, i requires 0 <= i < |a| =>
      seq(Width(b), j requires 0 <= j < Width(b) => Dot(a[i], Column(b, j))))
  }

  /** A dot product of two four-vectors, written out. */
  lemma {:induction false} Dot4(u: seq<real>, v: seq<real>)
    requires |u| == 4 && |v| == 4
    ensures Dot(u, v) == u[0] * v[0] + u[1] * v[1] + u[2] * v[2] + u[3] * v[3]
  {
    var u1, v1 := u[1..], v[1..];
    var u2, v2 := u1[1..], v1[1..];
    var u3, v3 := u2[1..], v2[1..];
    assert Dot(u3[1..], v3[1..]) == 0.0;
    assert Dot(u3, v3) == u[3] * v[3];
    assert Dot(u2, v2) == u[2] * v[2] + u[3] * v[3];
    assert Dot(u1, v1) == u[1] * v[1] + u[2] * v[2] + u[3] * v[3];
  }

  /** One entry of a product whose inner dimension is four, written out. */
  lemma Mul4Entry(a: Matrix, b: Matrix, i: nat, j: nat)
    requires IsMatrix(a, |a|, 4) && IsMatrix(b, 4, Width(b))
    requires i < |a| && j < Width(b)
    ensures Mul(a, b)[i][j] == a[i][0] * b[0][j] + a[i][1] * b[1][j] + a[i][2] * b[2][j] + a[i][3] * b[3][j]
  {
    Dot4(a[i], Column(b, j));
  }

  /** One entry of a product whose inner dimension is four, in terms of the
      values `x` of row `i` of `a` and `y` of column `j` of `b`. */
  lemma Mul4EntryOf(a: Matrix, b: Matrix, i: nat, j: nat,
                    x0: real, x1: real, x2: real, x3: real, y0: real, y1: real, y2: real, y3: real)
    requires IsMatrix(a, |a|, 4) && IsMatrix(b, 4, Width(b))
    requires i < |a| && j < Width(b)
    requires a[i][0] == x0 && a[i][1] == x1 && a[i][2] == x2 && a[i][3] == x3
    requires b[0][j] == y0 && b[1][j] == y1 && b[2][j] == y2 && b[3][j] == y3
    ensures Mul(a, b)[i][j] == x0 * y0 + x1 * y1 + x2 * y2 + x3 * y3
  {
    Mul4Entry(a, b, i, j);
    SubstituteProducts(a[i][0], a[i][1], a[i][2], a[i][3], b[0][j], b[1][j], b[2][j], b[3][j],
                       x0, x1, x2, x3, y0, y1, y2, y3);
  }

  lemma SubstituteProducts(a0: real, a1: real, a2: real, a3: real, b0: real, b1: real, b2: real, b3: real,
                           x0: real, x1: real, x2: real, x3: real, y0: real, y1: real, y2: real, y3: real)
    requires a0 == x0 && a1 == x1 && a2 == x2 && a3 == x3
    requires b0 == y0 && b1 == y1 && b2 == y2 && b3 == y3
    ensures a0 * b0 + a1 * b1 + a2 * b2 + a3 * b3 == x0 * y0 + x1 * y1 + x2 * y2 + x3 * y3
  {
  }

  /** Every entry of a product whose inner dimension is four, written out. */
  lemma Mul4Entries(a: Matrix, b: Matrix)
    requires IsMatrix(a, |a|, 4) && IsMatrix(b, 4, Width(b))
    ensures forall i, j :: 0 <= i < |a| && 0 <= j < Width(b) ==>
      Mul(a, b)[i][j] == a[i][0] * b[0][j] + a[i][1] * b[1][j] + a[i][2] * b[2][j] + a[i][3] * b[3][j]
  {
    forall i, j | 0 <= i < |a| && 0 <= j < Width(b)
      ensures Mul(a, b)[i][j] == a[i][0] * b[0][j] + a[i][1] * b[1][j] + a[i][2] * b[2][j] + a[i][3] * b[3][j]
    {
      Mul4Entry(a, b, i, j);
    }
  }

  /** Products of 4×4 matrices associate. */
  lemma MulAssoc4(a: Mat4, b: Mat4, c: Mat4)
    ensures Mul(Mul(a, b), c) == Mul(a, Mul(b, c))
  {
    var ab, bc := Mul(a, b), Mul(b, c);
    forall i | 0 <= i < 4
      ensures Mul(ab, c)[i] == Mul(a, bc)[i]
    {
      forall j | 0 <= j < 4
        ensures Mul(ab, c)[i][j] == Mul(a, bc)[i][j]
      {
        AssocEntry(a, b, c, i, j);
      }
    }
  }

  /** Entry `(i, j)` of `(a · b) · c` equals that of `a · (b · c)`. */
  lemma AssocEntry(a: Mat4, b: Mat4, c: Mat4, i: nat, j: nat)
    requires i < 4 && j < 4
    ensures Mul(Mul(a, b), c)[i][j] == Mul(a, Mul(b, c))[i][j]
  {
    var ab, bc := Mul(a, b), Mul(b, c);
    var u0, u1, u2, u3 := a[i][0], a[i][1], a[i][2], a[i][3];
    var b00, b01, b02, b03 := b[0][0], b[0][1], b[0][2], b[0][3];
    var b10, b11, b12, b13 := b[1][0], b[1][1], b[1][2], b[1][3];
    var b20, b21, b22, b23 := b[2][0], b[2][1], b[2][2], b[2][3];
    var b30, b31, b32, b33 := b[3][0], b[3][1], b[3][2], b[3][3];
    var c0, c1, c2, c3 := c[0][j], c[1][j], c[2][j], c[3][j];
    Mul4EntryOf(a, b, i, 0, u0, u1, u2, u3, b00, b10, b20, b30);
    Mul4EntryOf(a, b, i, 1, u0, u1, u2, u3, b01, b11, b21, b31);
    Mul4EntryOf(a, b, i, 2, u0, u1, u2, u3, b02, b12, b22, b32);
    Mul4EntryOf(a, b, i, 3, u0, u1, u2, u3, b03, b13, b23, b33);
    Mul4EntryOf(b, c, 0, j, b00, b01, b02, b03, c0, c1, c2, c3);
    Mul4EntryOf(b, c, 1, j, b10, b11, b12, b13, c0, c1, c2, c3);
    Mul4EntryOf(b, c, 2, j, b20, b21, b22, b23, c0, c1, c2, c3);
    Mul4EntryOf(b, c, 3, j, b30, b31, b32, b33, c0, c1, c2, c3);
    Mul4EntryOf(ab, c, i, j, (u0 * b00 + u1 * b10 + u2 * b20 + u3 * b30), (u0 * b01 + u1 * b11 + u2 * b21 + u3 * b31), (u0 * b02 + u1 * b12 + u2 * b22 + u3 * b32), (u0 * b03 + u1 * b13 + u2 * b23 + u3 * b33),
                c0, c1, c2, c3);
    Mul4EntryOf(a, bc, i, j, u0, u1, u2, u3,
                (b00 * c0 + b01 * c1 + b02 * c2 + b03 * c3), (b10 * c0 + b11 * c1 + b12 * c2 + b13 * c3), (b20 * c0 + b21 * c1 + b22 * c2 + b23 * c3), (b30 * c0 + b31 * c1 + b32 * c2 + b33 * c3));
    RegroupSums(u0, u1, u2, u3, b00, b01, b02, b03, b10, b11, b12, b13, b20, b21, b22, b23, b30, b31, b32, b33, c0, c1, c2, c3);
  }

  /** Regrouping a double sum of products: summing `u · b` against `c`
      equals summing `u` against `b · c`. */
  lemma RegroupSums(u0: real, u1: real, u2: real, u3: real,
                    b00: real, b01: real, b02: real, b03: real,
                    b10: real, b11: real, b12: real, b13: real,
                    b20: real, b21: real, b22: real, b23: real,
                    b30: real, b31: real, b32: real, b33: real,
                    c0: real, c1: real, c2: real, c3: real)
    ensures (u0 * b00 + u1 * b10 + u2 * b20 + u3 * b30) * c0 + (u0 * b01 + u1 * b11 + u2 * b21 + u3 * b31) * c1
          + (u0 * b02 + u1 * b12 + u2 * b22 + u3 * b32) * c2 + (u0 * b03 + u1 * b13 + u2 * b23 + u3 * b33) * c3
         == u0 * (b00 * c0 + b01 * c1 + b02 * c2 + b03 * c3) + u1 * (b10 * c0 + b11 * c1 + b12 * c2 + b13 * c3)
          + u2 * (b20 * c0 + b21 * c1 + b22 * c2 + b23 * c3) + u3 * (b30 * c0 + b31 * c1 + b32 * c2 + b33 * c3)
  {
  }

  /** The 4×4 identity is neutral on both sides. */
  lemma MulIdentity4(a: Mat4)
    ensures Mul(Eye(4, 4), a) == a && Mul(a, Eye(4, 4)) == a
  {
    var e := Eye(4, 4);
    forall i | 0 <= i < 4
      ensures Mul(e, a)[i] == a[i] && Mul(a, e)[i] == a[i]
    {
      forall j | 0 <= j < 4
        ensures Mul(e, a)[i][j] == a[i][j] && Mul(a, e)[i][j] == a[i][j]
      {
        Mul4Entry(e, a, i, j);
        Mul4Entry(a, e, i, j);
      }
    }
  }
}
