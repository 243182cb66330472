/**
 * Exact real linear algebra on 3-vectors and 3x3 matrices: the part of commons-math
 * (Vector3D, RealVector, RealMatrix, MatrixUtils.inverse) that the modelled code uses on
 * rotation blocks and positions.  Entries are Dafny `real`, so every identity is exact and
 * floating-point rounding is not modelled.  Matrices are records of their nine entries, so
 * that each entry of a product is a plain polynomial of the inputs.
 */
module Linear {

  datatype Vec3 = Vec3(x: real, y: real, z: real)

  /** A 3x3 matrix; `mRC` is the entry in row R, column C. */
  datatype Mat33 = Mat33(m00: real, m01: real, m02: real,
                         m10: real, m11: real, m12: real,
                         m20: real, m21: real, m22: real)

  const Zero3 := Vec3(0.0, 0.0, 0.0)
  const Identity3 := Mat33(1.0, 0.0, 0.0, 0.0, 1.0, 0.0, 0.0, 0.0, 1.0)

  // ---------- vectors ----------

  function Add3(a: Vec3, b: Vec3): Vec3 { Vec3(a.x + b.x, a.y + b.y, a.z + b.z) }
  function Sub3(a: Vec3, b: Vec3): Vec3 { Vec3(a.x - b.x, a.y - b.y, a.z - b.z) }
  function Neg3(a: Vec3): Vec3 { Vec3(-a.x, -a.y, -a.z) }
  function Scale3(k: real, a: Vec3): Vec3 { Vec3(k * a.x, k * a.y, k * a.z) }
  function Dot3(a: Vec3, b: Vec3): real { a.x * b.x + a.y * b.y + a.z * b.z }
  function Cross3(a: Vec3, b: Vec3): Vec3 {
    Vec3(a.y * b.z - a.z * b.y, a.z * b.x - a.x * b.z, a.x * b.y - a.y * b.x)
  }

  // ---------- matrices ----------

  function Row(m: Mat33, i: nat): Vec3
    requires i < 3
  {
    if i == 0 then Vec3(m.m00, m.m01, m.m02)
    else if i == 1 then Vec3(m.m10, m.m11, m.m12)
    else Vec3(m.m20, m.m21, m.m22)
  }

  function Col(m: Mat33, j: nat): Vec3
    requires j < 3
  {
    if j == 0 then Vec3(m.m00, m.m10, m.m20)
    else if j == 1 then Vec3(m.m01, m.m11, m.m21)
    else Vec3(m.m02, m.m12, m.m22)
  }

  /** The matrix whose rows are `r0`, `r1`, `r2`. */
  function FromRows(r0: Vec3, r1: Vec3, r2: Vec3): Mat33 {
    Mat33(r0.x, r0.y, r0.z, r1.x, r1.y, r1.z, r2.x, r2.y, r2.z)
  }

  /** The matrix whose columns are `c0`, `c1`, `c2` (RealMatrix.setColumn three times). */
  function FromColumns(c0: Vec3, c1: Vec3, c2: Vec3): Mat33 {
    Mat33(c0.x, c1.x, c2.x, c0.y, c1.y, c2.y, c0.z, c1.z, c2.z)
  }

  /** Matrix product (RealMatrix.multiply): entry (i, j) is row i of `a` dotted with column j of `b`. */
  function Mul33(a: Mat33, b: Mat33): Mat33 {
    Mat33(Dot3(Row(a, 0), Col(b, 0)), Dot3(Row(a, 0), Col(b, 1)), Dot3(Row(a, 0), Col(b, 2)),
          Dot3(Row(a, 1), Col(b, 0)), Dot3(Row(a, 1), Col(b, 1)), Dot3(Row(a, 1), Col(b, 2)),
          Dot3(Row(a, 2), Col(b, 0)), Dot3(Row(a, 2), Col(b, 1)), Dot3(Row(a, 2), Col(b, 2)))
  }

  /** Matrix times vector (RealMatrix.operate). */
  function Apply33(m: Mat33, v: Vec3): Vec3 {
    Vec3(Dot3(Row(m, 0), v), Dot3(Row(m, 1), v), Dot3(Row(m, 2), v))
  }

  /** `k` times every entry, row by row. */
  function Scale33(k: real, m: Mat33): Mat33 {
    FromRows(Scale3(k, Row(m, 0)), Scale3(k, Row(m, 1)), Scale3(k, Row(m, 2)))
  }

  function Transpose33(m: Mat33): Mat33 {
    Mat33(m.m00, m.m10, m.m20, m.m01, m.m11, m.m21, m.m02, m.m12, m.m22)
  }

  /** The determinant, by the Leibniz formula. */
  function Det3(m: Mat33): real {
    m.m00 * m.m11 * m.m22 + m.m01 * m.m12 * m.m20 + m.m02 * m.m10 * m.m21
    - m.m02 * m.m11 * m.m20 - m.m00 * m.m12 * m.m21 - m.m01 * m.m10 * m.m22
  }

  /** The adjugate: the transposed matrix of cofactors. */
  function Adjugate3(m: Mat33): Mat33 {
    Mat33(m.m11 * m.m22 - m.m12 * m.m21, m.m02 * m.m21 - m.m01 * m.m22, m.m01 * m.m12 - m.m02 * m.m11,
          m.m12 * m.m20 - m.m10 * m.m22, m.m00 * m.m22 - m.m02 * m.m20, m.m02 * m.m10 - m.m00 * m.m12,
          m.m10 * m.m21 - m.m11 * m.m20, m.m01 * m.m20 - m.m00 * m.m21, m.m00 * m.m11 - m.m01 * m.m10)
  }

  /**
   * The exact inverse of a non-singular matrix (MatrixUtils.inverse, which throws
   * SingularMatrixException when the determinant is zero).
   */
  function Inverse3(m: Mat33): Mat33
    requires Det3(m) != 0.0
  {
    Scale33(1.0 / Det3(m), Adjugate3(m))
  }

  // ---------- the inverse is a two-sided inverse ----------

  /** A scalar matrix: `d` on the diagonal, 0 elsewhere. */
  function ScalarMatrix(d: real): Mat33 { Mat33(d, 0.0, 0.0, 0.0, d, 0.0, 0.0, 0.0, d) }

  lemma DotComm(u: Vec3, v: Vec3)
    ensures Dot3(u, v) == Dot3(v, u)
  {}

  /** The cross product is orthogonal to both of its factors. */
  lemma CrossOrthogonal(u: Vec3, v: Vec3)
    ensures Dot3(u, Cross3(u, v)) == 0.0 && Dot3(v, Cross3(u, v)) == 0.0
  {}

  /** The scalar triple product is invariant under cyclic rotation of its factors. */
  lemma TripleProduct(u: Vec3, v: Vec3, w: Vec3)
    ensures Dot3(u, Cross3(v, w)) == Dot3(v, Cross3(w, u))
  {}

  /** The determinant is the triple product of the columns, and also of the rows. */
  lemma DetTriple(m: Mat33)
    ensures Det3(m) == Dot3(Col(m, 0), Cross3(Col(m, 1), Col(m, 2)))
    ensures Det3(m) == Dot3(Row(m, 0), Cross3(Row(m, 1), Row(m, 2)))
  {}

  lemma AdjugateRow0(m: Mat33)
    ensures Row(Adjugate3(m), 0) == Cross3(Col(m, 1), Col(m, 2))
  {}

  lemma AdjugateRow1(m: Mat33)
    ensures Row(Adjugate3(m), 1) == Cross3(Col(m, 2), Col(m, 0))
  {}

  lemma AdjugateRow2(m: Mat33)
    ensures Row(Adjugate3(m), 2) == Cross3(Col(m, 0), Col(m, 1))
  {}

  lemma AdjugateCol0(m: Mat33)
    ensures Col(Adjugate3(m), 0) == Cross3(Row(m, 1), Row(m, 2))
  {}

  lemma AdjugateCol1(m: Mat33)
    ensures Col(Adjugate3(m), 1) == Cross3(Row(m, 2), Row(m, 0))
  {}

  lemma AdjugateCol2(m: Mat33)
    ensures Col(Adjugate3(m), 2) == Cross3(Row(m, 0), Row(m, 1))
  {}

  /** adj(m)·m = m·adj(m) = det(m)·I. */
  lemma {:induction false} Adjugate(m: Mat33)
    ensures Mul33(Adjugate3(m), m) == ScalarMatrix(Det3(m))
    ensures Mul33(m, Adjugate3(m)) == ScalarMatrix(Det3(m))
  {
    var c0, c1, c2 := Col(m, 0), Col(m, 1), Col(m, 2);
    var r0, r1, r2 := Row(m, 0), Row(m, 1), Row(m, 2);
    AdjugateRow0(m); AdjugateRow1(m); AdjugateRow2(m);
    AdjugateCol0(m); AdjugateCol1(m); AdjugateCol2(m);
    DetTriple(m);
    CrossOrthogonal(c1, c2); CrossOrthogonal(c2, c0); CrossOrthogonal(c0, c1);
    TripleProduct(c0, c1, c2); TripleProduct(c1, c2, c0);
    DotComm(Cross3(c1, c2), c0); DotComm(Cross3(c1, c2), c1); DotComm(Cross3(c1, c2), c2);
    DotComm(Cross3(c2, c0), c0); DotComm(Cross3(c2, c0), c1); DotComm(Cross3(c2, c0), c2);
    DotComm(Cross3(c0, c1), c0); DotComm(Cross3(c0, c1), c1); DotComm(Cross3(c0, c1), c2);
    CrossOrthogonal(r1, r2); CrossOrthogonal(r2, r0); CrossOrthogonal(r0, r1);
    TripleProduct(r0, r1, r2); TripleProduct(r1, r2, r0);
  }

  lemma DivSelf(d: real)
    requires d != 0.0
    ensures (1.0 / d) * d == 1.0
  {}

  lemma MulZero(k: real, x: real)
    requires x == 0.0
    ensures k * x == 0.0
  {}

  /** Every matrix maps the zero vector to itself. */
  lemma ApplyZero(m: Mat33)
    ensures Apply33(m, Zero3) == Zero3
  {
    MulZero(m.m00, 0.0);
  }

  lemma DotScaleLeft(k: real, u: Vec3, v: Vec3)
    ensures Dot3(Scale3(k, u), v) == k * Dot3(u, v)
  {}

  lemma DotScaleRight(k: real, u: Vec3, v: Vec3)
    ensures Dot3(u, Scale3(k, v)) == k * Dot3(u, v)
  {}

  lemma ScaleRows(k: real, a: Mat33)
    ensures Row(Scale33(k, a), 0) == Scale3(k, Row(a, 0))
    ensures Row(Scale33(k, a), 1) == Scale3(k, Row(a, 1))
    ensures Row(Scale33(k, a), 2) == Scale3(k, Row(a, 2))
  {}

  lemma ScaleCol0(k: real, a: Mat33)
    ensures Col(Scale33(k, a), 0) == Scale3(k, Col(a, 0))
  {}

  lemma ScaleCol1(k: real, a: Mat33)
    ensures Col(Scale33(k, a), 1) == Scale3(k, Col(a, 1))
  {}

  lemma ScaleCol2(k: real, a: Mat33)
    ensures Col(Scale33(k, a), 2) == Scale3(k, Col(a, 2))
  {}

  /** Entry (r, c) of (a / d)·m, given entry (r, c) of a·m is d on the diagonal and 0 off it. */
  lemma ScaledEntryLeft(a: Mat33, m: Mat33, d: real, r: nat, c: nat)
    requires d != 0.0 && r < 3 && c < 3
    requires Dot3(Row(a, r), Col(m, c)) == (if r == c then d else 0.0)
    ensures Dot3(Row(Scale33(1.0 / d, a), r), Col(m, c)) == (if r == c then 1.0 else 0.0)
  {
    ScaleRows(1.0 / d, a);
    DotScaleLeft(1.0 / d, Row(a, r), Col(m, c));
    if r == c {
      DivSelf(d);
    } else {
      MulZero(1.0 / d, Dot3(Row(a, r), Col(m, c)));
    }
  }

  /** Entry (r, c) of m·(a / d), given entry (r, c) of m·a is d on the diagonal and 0 off it. */
  lemma ScaledEntryRight(a: Mat33, m: Mat33, d: real, r: nat, c: nat)
    requires d != 0.0 && r < 3 && c < 3
    requires Dot3(Row(m, r), Col(a, c)) == (if r == c then d else 0.0)
    ensures Dot3(Row(m, r), Col(Scale33(1.0 / d, a), c)) == (if r == c then 1.0 else 0.0)
  {
    if c == 0 {
      ScaleCol0(1.0 / d, a);
    } else if c == 1 {
      ScaleCol1(1.0 / d, a);
    } else {
      ScaleCol2(1.0 / d, a);
    }
    DotScaleRight(1.0 / d, Row(m, r), Col(a, c));
    if r == c {
      DivSelf(d);
    } else {
      MulZero(1.0 / d, Dot3(Row(m, r), Col(a, c)));
    }
  }

  /** Inverse3 is a left and a right inverse. */
  lemma {:induction false} InverseCorrect(m: Mat33)
    requires Det3(m) != 0.0
    ensures Mul33(Inverse3(m), m) == Identity3
    ensures Mul33(m, Inverse3(m)) == Identity3
  {
    Adjugate(m);
    ScaledEntryLeft(Adjugate3(m), m, Det3(m), 0, 0);
    ScaledEntryRight(Adjugate3(m), m, Det3(m), 0, 0);
    ScaledEntryLeft(Adjugate3(m), m, Det3(m), 0, 1);
    ScaledEntryRight(Adjugate3(m), m, Det3(m), 0, 1);
    ScaledEntryLeft(Adjugate3(m), m, Det3(m), 0, 2);
    ScaledEntryRight(Adjugate3(m), m, Det3(m), 0, 2);
    ScaledEntryLeft(Adjugate3(m), m, Det3(m), 1, 0);
    ScaledEntryRight(Adjugate3(m), m, Det3(m), 1, 0);
    ScaledEntryLeft(Adjugate3(m), m, Det3(m), 1, 1);
    ScaledEntryRight(Adjugate3(m), m, Det3(m), 1, 1);
    ScaledEntryLeft(Adjugate3(m), m, Det3(m), 1, 2);
    ScaledEntryRight(Adjugate3(m), m, Det3(m), 1, 2);
    ScaledEntryLeft(Adjugate3(m), m, Det3(m), 2, 0);
    ScaledEntryRight(Adjugate3(m), m, Det3(m), 2, 0);
    ScaledEntryLeft(Adjugate3(m), m, Det3(m), 2, 1);
    ScaledEntryRight(Adjugate3(m), m, Det3(m), 2, 1);
    ScaledEntryLeft(Adjugate3(m), m, Det3(m), 2, 2);
    ScaledEntryRight(Adjugate3(m), m, Det3(m), 2, 2);
  }

  // ---------- products with vectors ----------

  lemma DotAdd(u: Vec3, v: Vec3, w: Vec3)
    ensures Dot3(u, Add3(v, w)) == Dot3(u, v) + Dot3(u, w)
  {}

  lemma DotSub(u: Vec3, v: Vec3, w: Vec3)
    ensures Dot3(u, Sub3(v, w)) == Dot3(u, v) - Dot3(u, w)
  {}

  lemma DotNeg(u: Vec3, v: Vec3)
    ensures Dot3(u, Neg3(v)) == -Dot3(u, v)
  {}

  /** Applying a matrix distributes over sums, differences and negation of vectors. */
  lemma {:induction false} ApplyLinear(m: Mat33, u: Vec3, v: Vec3)
    ensures Apply33(m, Add3(u, v)) == Add3(Apply33(m, u), Apply33(m, v))
    ensures Apply33(m, Sub3(u, v)) == Sub3(Apply33(m, u), Apply33(m, v))
    ensures Apply33(m, Neg3(u)) == Neg3(Apply33(m, u))
  {
    DotAdd(Row(m, 0), u, v); DotAdd(Row(m, 1), u, v); DotAdd(Row(m, 2), u, v);
    DotSub(Row(m, 0), u, v); DotSub(Row(m, 1), u, v); DotSub(Row(m, 2), u, v);
    DotNeg(Row(m, 0), u); DotNeg(Row(m, 1), u); DotNeg(Row(m, 2), u);
  }

  /** Row `u` of a product u·b, written as the row vector u·b. */
  function RowTimes(u: Vec3, b: Mat33): Vec3 {
    Vec3(Dot3(u, Col(b, 0)), Dot3(u, Col(b, 1)), Dot3(u, Col(b, 2)))
  }

  lemma DotApply(u: Vec3, b: Mat33, v: Vec3)
    ensures Dot3(u, Apply33(b, v)) == Dot3(RowTimes(u, b), v)
  {}

  /** Applying a product is applying its factors in turn. */
  lemma {:induction false} ApplyMul(a: Mat33, b: Mat33, v: Vec3)
    ensures Apply33(a, Apply33(b, v)) == Apply33(Mul33(a, b), v)
  {
    assert Row(Mul33(a, b), 0) == RowTimes(Row(a, 0), b);
    assert Row(Mul33(a, b), 1) == RowTimes(Row(a, 1), b);
    assert Row(Mul33(a, b), 2) == RowTimes(Row(a, 2), b);
    DotApply(Row(a, 0), b, v); DotApply(Row(a, 1), b, v); DotApply(Row(a, 2), b, v);
  }

  lemma ApplyIdentity(v: Vec3)
    ensures Apply33(Identity3, v) == v
  {}

  /** Column j of a product is the left factor applied to column j of the right one. */
  lemma MulColumns(a: Mat33, b: Mat33)
    ensures Mul33(a, b) == FromColumns(Apply33(a, Col(b, 0)), Apply33(a, Col(b, 1)), Apply33(a, Col(b, 2)))
  {}

  /** Turning by the inverse of an invertible matrix and then by the matrix is no turn. */
  lemma {:induction false} UndoTurn(t: Mat33, r: Mat33)
    requires Det3(t) != 0.0
    ensures Mul33(t, Mul33(Inverse3(t), r)) == r
  {
    var ti := Inverse3(t);
    InverseCorrect(t);
    MulColumns(ti, r);
    MulColumns(t, Mul33(ti, r));
    ApplyMul(t, ti, Col(r, 0));
    ApplyMul(t, ti, Col(r, 1));
    ApplyMul(t, ti, Col(r, 2));
    ApplyIdentity(Col(r, 0));
    ApplyIdentity(Col(r, 1));
    ApplyIdentity(Col(r, 2));
  }

  /** A matrix of determinant 1 has its adjugate as its inverse. */
  lemma InverseUnitDet(m: Mat33, a: Mat33)
    requires Det3(m) == 1.0 && Adjugate3(m) == a
    ensures Inverse3(m) == a
  {
    assert 1.0 / Det3(m) == 1.0;
  }

  /** Matrix products associate, column by column. */
  lemma {:induction false} MulAssoc(a: Mat33, b: Mat33, c: Mat33)
    ensures Mul33(Mul33(a, b), c) == Mul33(a, Mul33(b, c))
  {
    MulColumns(Mul33(a, b), c);
    MulColumns(b, c);
    MulColumns(a, Mul33(b, c));
    ApplyMul(a, b, Col(c, 0));
    ApplyMul(a, b, Col(c, 1));
    ApplyMul(a, b, Col(c, 2));
  }

  /** The Binet–Cauchy identity for 3-vectors. */
  lemma BinetCauchy(p: Vec3, q: Vec3, u: Vec3, v: Vec3)
    ensures Dot3(p, u) * Dot3(q, v) - Dot3(q, u) * Dot3(p, v) == Dot3(Cross3(p, q), Cross3(u, v))
  {}

  lemma DotTranspose(m: Mat33, x: Vec3, c: Vec3)
    ensures Dot3(x, Apply33(Transpose33(m), c)) == Dot3(Apply33(m, x), c)
  {}

  lemma ApplyScalar(d: real, u: Vec3)
    ensures Apply33(ScalarMatrix(d), u) == Scale3(d, u)
  {}

  /** A matrix maps a cross product to the transposed adjugate times the cross product of the originals. */
  lemma {:induction false} CrossApply(a: Mat33, u: Vec3, v: Vec3)
    ensures Cross3(Apply33(a, u), Apply33(a, v)) == Apply33(Transpose33(Adjugate3(a)), Cross3(u, v))
  {
    var r0, r1, r2 := Row(a, 0), Row(a, 1), Row(a, 2);
    BinetCauchy(r1, r2, u, v);
    BinetCauchy(r2, r0, u, v);
    BinetCauchy(r0, r1, u, v);
    AdjugateCol0(a); AdjugateCol1(a); AdjugateCol2(a);
  }

  /** A matrix scales every triple product by its determinant. */
  lemma {:induction false} TripleApply(a: Mat33, u: Vec3, v: Vec3, w: Vec3)
    ensures Dot3(Apply33(a, u), Cross3(Apply33(a, v), Apply33(a, w))) == Det3(a) * Dot3(u, Cross3(v, w))
  {
    var c := Cross3(v, w);
    CrossApply(a, v, w);
    DotTranspose(Adjugate3(a), Apply33(a, u), c);
    ApplyMul(Adjugate3(a), a, u);
    Adjugate(a);
    ApplyScalar(Det3(a), u);
    DotScaleLeft(Det3(a), u, c);
  }

  /** The determinant of a product is the product of the determinants. */
  lemma {:induction false} DetMul(a: Mat33, b: Mat33)
    ensures Det3(Mul33(a, b)) == Det3(a) * Det3(b)
  {
    var m := Mul33(a, b);
    MulColumns(a, b);
    assert Col(m, 0) == Apply33(a, Col(b, 0)) && Col(m, 1) == Apply33(a, Col(b, 1)) && Col(m, 2) == Apply33(a, Col(b, 2));
    DetTriple(m);
    DetTriple(b);
    TripleApply(a, Col(b, 0), Col(b, 1), Col(b, 2));
  }

  /** A product of invertible matrices is invertible, its inverse the inverses in reverse order. */
  lemma {:induction false} InverseOfProduct(a: Mat33, b: Mat33)
    requires Det3(a) != 0.0 && Det3(b) != 0.0
    ensures Det3(Mul33(a, b)) != 0.0
    ensures Inverse3(Mul33(a, b)) == Mul33(Inverse3(b), Inverse3(a))
  {
    DetMul(a, b);
    var m, x := Mul33(a, b), Mul33(Inverse3(b), Inverse3(a));
    InverseCorrect(a);
    InverseCorrect(b);
    InverseCorrect(m);
    // x is a left inverse of m ...
    MulAssoc(Inverse3(b), Inverse3(a), m);
    MulAssoc(Inverse3(a), a, b);
    MulIdentity(b);
    assert Mul33(x, m) == Identity3;
    // ... so it is the inverse: x = x·(m·m⁻¹) = (x·m)·m⁻¹ = m⁻¹
    MulAssoc(x, m, Inverse3(m));
    MulIdentity(x);
    MulIdentity(Inverse3(m));
  }

  lemma MulIdentity(a: Mat33)
    ensures Mul33(a, Identity3) == a
    ensures Mul33(Identity3, a) == a
  {}
}
