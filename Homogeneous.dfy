/**
 * Homogeneous 4x4 transforms and 4-vectors: the RealMatrix / RealVector values the cell passes
 * between coordinate frames.  A rigid transform has a 3x3 block R in the upper left, a
 * translation t in column 3 of rows 0-2 and the bottom row [0, 0, 0, 1].
 */
module Homogeneous {
  import opened Linear

  datatype Vec4 = Vec4(x: real, y: real, z: real, w: real)

  /** A 4x4 matrix; `mRC` is the entry in row R, column C. */
  datatype Mat44 = Mat44(m00: real, m01: real, m02: real, m03: real,
                         m10: real, m11: real, m12: real, m13: real,
                         m20: real, m21: real, m22: real, m23: real,
                         m30: real, m31: real, m32: real, m33: real)

  const Identity44 := Mat44(1.0, 0.0, 0.0, 0.0, 0.0, 1.0, 0.0, 0.0,
                            0.0, 0.0, 1.0, 0.0, 0.0, 0.0, 0.0, 1.0)

  /** A freshly allocated 4x4 matrix. */
  const Zero44 := Mat44(0.0, 0.0, 0.0, 0.0, 0.0, 0.0, 0.0, 0.0,
                        0.0, 0.0, 0.0, 0.0, 0.0, 0.0, 0.0, 0.0)

  function Dot4(u: Vec4, v: Vec4): real { u.x * v.x + u.y * v.y + u.z * v.z + u.w * v.w }

  function Row4(m: Mat44, i: nat): Vec4
    requires i < 4
  {
    if i == 0 then Vec4(m.m00, m.m01, m.m02, m.m03)
    else if i == 1 then Vec4(m.m10, m.m11, m.m12, m.m13)
    else if i == 2 then Vec4(m.m20, m.m21, m.m22, m.m23)
    else Vec4(m.m30, m.m31, m.m32, m.m33)
  }

  function Col4(m: Mat44, j: nat): Vec4
    requires j < 4
  {
    if j == 0 then Vec4(m.m00, m.m10, m.m20, m.m30)
    else if j == 1 then Vec4(m.m01, m.m11, m.m21, m.m31)
    else if j == 2 then Vec4(m.m02, m.m12, m.m22, m.m32)
    else Vec4(m.m03, m.m13, m.m23, m.m33)
  }

  /** Matrix product (RealMatrix.multiply). */
  function Mul44(a: Mat44, b: Mat44): Mat44 {
    Mat44(Dot4(Row4(a, 0), Col4(b, 0)), Dot4(Row4(a, 0), Col4(b, 1)), Dot4(Row4(a, 0), Col4(b, 2)), Dot4(Row4(a, 0), Col4(b, 3)),
          Dot4(Row4(a, 1), Col4(b, 0)), Dot4(Row4(a, 1), Col4(b, 1)), Dot4(Row4(a, 1), Col4(b, 2)), Dot4(Row4(a, 1), Col4(b, 3)),
          Dot4(Row4(a, 2), Col4(b, 0)), Dot4(Row4(a, 2), Col4(b, 1)), Dot4(Row4(a, 2), Col4(b, 2)), Dot4(Row4(a, 2), Col4(b, 3)),
          Dot4(Row4(a, 3), Col4(b, 0)), Dot4(Row4(a, 3), Col4(b, 1)), Dot4(Row4(a, 3), Col4(b, 2)), Dot4(Row4(a, 3), Col4(b, 3)))
  }

  /** Matrix times vector (RealMatrix.operate). */
  function Apply44(m: Mat44, v: Vec4): Vec4 {
    Vec4(Dot4(Row4(m, 0), v), Dot4(Row4(m, 1), v), Dot4(Row4(m, 2), v), Dot4(Row4(m, 3), v))
  }

  /** The homogeneous transform with block `r` and translation `t`. */
  function HomMatrix(r: Mat33, t: Vec3): Mat44 {
    Mat44(r.m00, r.m01, r.m02, t.x,
          r.m10, r.m11, r.m12, t.y,
          r.m20, r.m21, r.m22, t.z,
          0.0, 0.0, 0.0, 1.0)
  }

  /** The upper-left 3x3 block (getSubMatrix(0, 2, 0, 2)). */
  function Block(h: Mat44): Mat33 {
    Mat33(h.m00, h.m01, h.m02, h.m10, h.m11, h.m12, h.m20, h.m21, h.m22)
  }

  /** Column 3 of rows 0-2 (getColumnVector(3).getSubVector(0, 3)). */
  function Translation(h: Mat44): Vec3 { Vec3(h.m03, h.m13, h.m23) }

  /** The bottom row is [0, 0, 0, 1]. */
  predicate IsHomogeneous(h: Mat44) {
    h.m30 == 0.0 && h.m31 == 0.0 && h.m32 == 0.0 && h.m33 == 1.0
  }

  /** The homogeneous point (p, 1). */
  function Point(p: Vec3): Vec4 { Vec4(p.x, p.y, p.z, 1.0) }

  /** The first three entries (getSubVector(0, 3)). */
  function Xyz(v: Vec4): Vec3 { Vec3(v.x, v.y, v.z) }

  /** setSubMatrix(b, 0, 0): the upper-left block replaced, every other entry kept. */
  function SetBlock(h: Mat44, b: Mat33): Mat44 {
    h.(m00 := b.m00, m01 := b.m01, m02 := b.m02,
       m10 := b.m10, m11 := b.m11, m12 := b.m12,
       m20 := b.m20, m21 := b.m21, m22 := b.m22)
  }

  /** setColumn(3, v): the last column replaced by `v`, every other entry kept. */
  function SetColumn3(h: Mat44, v: Vec4): Mat44 {
    h.(m03 := v.x, m13 := v.y, m23 := v.z, m33 := v.w)
  }

  /** A homogeneous matrix is determined by its block and translation, and vice versa. */
  lemma HomParts(r: Mat33, t: Vec3, h: Mat44)
    ensures Block(HomMatrix(r, t)) == r && Translation(HomMatrix(r, t)) == t
    ensures IsHomogeneous(HomMatrix(r, t))
    ensures IsHomogeneous(h) <==> h == HomMatrix(Block(h), Translation(h))
  {}

  /** The product of two homogeneous transforms: blocks multiply, translations compose. */
  lemma HomMul(r1: Mat33, t1: Vec3, r2: Mat33, t2: Vec3)
    ensures Mul44(HomMatrix(r1, t1), HomMatrix(r2, t2)) == HomMatrix(Mul33(r1, r2), Add3(Apply33(r1, t2), t1))
  {}

  /** Following a transform by a pure turn keeps its translation. */
  lemma {:induction false} HomMulNoTranslation(r1: Mat33, t1: Vec3, r2: Mat33)
    ensures Mul44(HomMatrix(r1, t1), HomMatrix(r2, Zero3)) == HomMatrix(Mul33(r1, r2), t1)
  {
    HomMul(r1, t1, r2, Zero3);
    ApplyZero(r1);
    assert Add3(Zero3, t1) == t1;
  }

  /** A homogeneous transform maps the point (p, 1) to (r·p + t, 1). */
  lemma HomApply(r: Mat33, t: Vec3, p: Vec3)
    ensures Apply44(HomMatrix(r, t), Point(p)) == Point(Add3(Apply33(r, p), t))
  {}

  /** A homogeneous matrix maps a point with last entry 1 to block · xyz + translation. */
  lemma ApplyPoint(h: Mat44, v: Vec4)
    requires IsHomogeneous(h) && v.w == 1.0
    ensures Apply44(h, v) == Point(Add3(Apply33(Block(h), Xyz(v)), Translation(h)))
  {
    HomParts(Block(h), Translation(h), h);
    HomApply(Block(h), Translation(h), Xyz(v));
  }

  /**
   * The inverse of a rigid transform: block R⁻¹, translation -R⁻¹·t, bottom row [0, 0, 0, 1].
   * Only the block has to be invertible.
   */
  function InvertRigid(h: Mat44): Mat44
    requires Det3(Block(h)) != 0.0
  {
    HomMatrix(Inverse3(Block(h)), Neg3(Apply33(Inverse3(Block(h)), Translation(h))))
  }

  /** For a homogeneous h with invertible block, InvertRigid(h) is a two-sided inverse of h. */
  lemma {:induction false} InvertRigidCorrect(h: Mat44)
    requires IsHomogeneous(h) && Det3(Block(h)) != 0.0
    ensures Mul44(InvertRigid(h), h) == Identity44
    ensures Mul44(h, InvertRigid(h)) == Identity44
  {
    var r, t := Block(h), Translation(h);
    var ri := Inverse3(r);
    HomParts(r, t, h);
    InverseCorrect(r);
    HomMul(ri, Neg3(Apply33(ri, t)), r, t);
    HomMul(r, t, ri, Neg3(Apply33(ri, t)));
    ApplyLinear(r, Apply33(ri, t), t);
    ApplyMul(r, ri, t);
    ApplyIdentity(t);
  }

  /** Moving a point by a rigid transform and then by its inverse leaves it where it was. */
  lemma {:induction false} UndoAfterApply(h: Mat44, p: Vec3)
    requires IsHomogeneous(h) && Det3(Block(h)) != 0.0
    ensures Apply44(InvertRigid(h), Apply44(h, Point(p))) == Point(p)
  {
    var r, t := Block(h), Translation(h);
    var ri := Inverse3(r);
    InverseCorrect(r);
    HomParts(r, t, h);
    HomApply(r, t, p);
    var z := Add3(Apply33(r, p), t);
    HomApply(ri, Neg3(Apply33(ri, t)), z);
    ApplyLinear(ri, Apply33(r, p), t);
    ApplyMul(ri, r, p);
    ApplyIdentity(p);
  }

  /** Moving a point by the inverse of a rigid transform and then by the transform leaves it in place. */
  lemma {:induction false} ApplyAfterUndo(h: Mat44, p: Vec3)
    requires IsHomogeneous(h) && Det3(Block(h)) != 0.0
    ensures Apply44(h, Apply44(InvertRigid(h), Point(p))) == Point(p)
  {
    var r, t := Block(h), Translation(h);
    var ri := Inverse3(r);
    InverseCorrect(r);
    HomParts(r, t, h);
    HomApply(ri, Neg3(Apply33(ri, t)), p);
    var y := Add3(Apply33(ri, p), Neg3(Apply33(ri, t)));
    HomApply(r, t, y);
    ApplyLinear(r, Apply33(ri, p), Neg3(Apply33(ri, t)));
    ApplyLinear(r, Apply33(ri, t), t);
    ApplyMul(r, ri, p);
    ApplyMul(r, ri, t);
    ApplyIdentity(p);
    ApplyIdentity(t);
  }

  /** Rigid transforms compose to a rigid transform. */
  lemma MulHomogeneous(a: Mat44, b: Mat44)
    requires IsHomogeneous(a) && IsHomogeneous(b)
    ensures IsHomogeneous(Mul44(a, b))
  {
    HomParts(Block(a), Translation(a), a);
    HomParts(Block(b), Translation(b), b);
    HomMul(Block(a), Translation(a), Block(b), Translation(b));
  }

  /** The inverse of a composition of rigid transforms is the composition of their inverses, in reverse order. */
  lemma {:induction false} InvertRigidOfProduct(a: Mat44, b: Mat44)
    requires IsHomogeneous(a) && Det3(Block(a)) != 0.0
    requires IsHomogeneous(b) && Det3(Block(b)) != 0.0
    ensures Det3(Block(Mul44(a, b))) != 0.0
    ensures InvertRigid(Mul44(a, b)) == Mul44(InvertRigid(b), InvertRigid(a))
  {
    var ra, ta, rb, tb := Block(a), Translation(a), Block(b), Translation(b);
    var ia, ib := Inverse3(ra), Inverse3(rb);
    HomParts(ra, ta, a);
    HomParts(rb, tb, b);
    HomMul(ra, ta, rb, tb);
    var t := Add3(Apply33(ra, tb), ta);
    HomParts(Mul33(ra, rb), t, Mul44(a, b));
    InverseOfProduct(ra, rb);
    HomMul(ib, Neg3(Apply33(ib, tb)), ia, Neg3(Apply33(ia, ta)));
    // (ib·ia)·(ra·tb + ta) = tb + ib·(ia·ta)
    ApplyLinear(Mul33(ib, ia), Apply33(ra, tb), ta);
    ApplyMul(ib, ia, Apply33(ra, tb));
    ApplyMul(ib, ia, ta);
    ApplyMul(ia, ra, tb);
    InverseCorrect(ra);
    ApplyIdentity(tb);
    ApplyLinear(ib, Apply33(ia, ta), ta);
  }

  /** Undoing a rigid transform and redoing it leaves a pure translation where it was. */
  lemma {:induction false} CancelInverse(h: Mat44, p: Vec3)
    requires IsHomogeneous(h) && Det3(Block(h)) != 0.0
    ensures Mul44(h, Mul44(InvertRigid(h), HomMatrix(Identity3, p))) == HomMatrix(Identity3, p)
  {
    var r, t := Block(h), Translation(h);
    var ri, ti := Inverse3(r), Neg3(Apply33(Inverse3(r), Translation(h)));
    HomParts(r, t, h);
    HomMul(ri, ti, Identity3, p);
    MulIdentity(ri);
    var u := Add3(Apply33(ri, p), ti);
    assert Mul44(InvertRigid(h), HomMatrix(Identity3, p)) == HomMatrix(ri, u);
    HomMul(r, t, ri, u);
    InverseCorrect(r);
    HomApply(ri, ti, p);
    HomApply(r, t, u);
    ApplyAfterUndo(h, p);
  }
}
