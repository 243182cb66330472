/**
 * robCalibration.testDataGenerator: synthetic measurements for a robot/world and tool/flange
 * calibration (the equation M·X = Y·N). Per measurement it builds
 *   M  robot -> end effector     (random turn and random position),
 *   X  end effector -> marker    (fixed: no turn, offset (10, 10, 10)),
 *   Y  robot -> tracking system  (fixed: trackingOrientation, position (10, 20, 30)),
 *   N  tracking system -> marker (derived from M and Y),
 * appends them to four parallel lists, and finally perturbs every N with noise.
 *
 * java.util.Random is modelled by its draws: a `Draw` is a value of nextDouble, in [0, 1).
 * Math.sin and Math.cos of the derived angles are passed in as an `EulerTrig` record.
 */
module TestDataGenerator {
  import opened Wrappers
  import opened Linear
  import opened Homogeneous

  /** One value of Random.nextDouble. */
  type Draw = r: real | 0.0 <= r < 1.0 witness 0.0

  /** Cosines and sines of the three angles of an extrinsic x-y-z rotation. */
  datatype EulerTrig = EulerTrig(cx: real, sx: real, cy: real, sy: real, cz: real, sz: real)

  /** The random input of one addMeasurement: the turn of M and the three position draws. */
  datatype MeasurementDraws = MeasurementDraws(turn: EulerTrig, p0: Draw, p1: Draw, p2: Draw)

  /** The random input of the noise on one N: the small turn and the three shift draws. */
  datatype NoiseDraws = NoiseDraws(turn: EulerTrig, s0: Draw, s1: Draw, s2: Draw)

  /** trackingPosition: the tracking system's origin in robot coordinates. */
  const TrackingPosition := Vec3(10.0, 20.0, 30.0)

  /** trackingOrientation: the tracking system's axes in robot coordinates. */
  const TrackingOrientation := Mat33(-1.0, 0.0, 0.0, 0.0, 0.0, -1.0, 0.0, -1.0, 0.0)

  /** markersPositionRelativeToEndeffector. */
  const MarkerOffset := Vec3(10.0, 10.0, 10.0)

  // ---------- tool methods ----------

  /** createHomMatrix: `rot` in the upper-left block, `pos` in column 3, bottom row [0, 0, 0, 1]. */
  function CreateHomMatrix(rot: Mat33, pos: Vec3): (r: Mat44)
    ensures Block(r) == rot && Translation(r) == pos
    ensures IsHomogeneous(r)
  {
    HomMatrix(rot, pos)
  }

  /** createHomVector: (v0, v1, v2, 1). */
  function CreateHomVector(v: Vec3): (r: Vec4)
    ensures Xyz(r) == v && r.w == 1.0
  {
    Point(v)
  }

  /** Block and translation are all a homogeneous matrix holds: splitting and rebuilding is the identity. */
  lemma HomMatrixRoundTrip(h: Mat44, rot: Mat33, pos: Vec3)
    ensures IsHomogeneous(h) <==> CreateHomMatrix(Block(h), Translation(h)) == h
    ensures CreateHomMatrix(rot, pos) == h ==> Block(h) == rot && Translation(h) == pos
  {
    HomParts(Block(h), Translation(h), h);
  }

  /** A homogeneous vector is determined by its first three entries. */
  lemma HomVectorRoundTrip(v: Vec4)
    ensures v.w == 1.0 <==> CreateHomVector(Xyz(v)) == v
  {}

  // ---------- X and Y ----------

  /** createXMatrix: the marker sits at a fixed offset from the end effector, with the same axes. */
  function CreateXMatrix(markerOffset: Vec3): (r: Mat44)
    ensures Block(r) == Identity3 && Translation(r) == markerOffset && IsHomogeneous(r)
  {
    CreateHomMatrix(Identity3, markerOffset)
  }

  /** X moves every point by the marker offset and does not turn it. */
  lemma XMovesByOffset(p: Vec3, markerOffset: Vec3)
    ensures Apply44(CreateXMatrix(markerOffset), Point(p)) == Point(Add3(p, markerOffset))
  {
    HomApply(Identity3, markerOffset, p);
    ApplyIdentity(p);
  }

  /** createYMatrix: the tracking system's fixed pose. */
  function CreateYMatrix(trackingOrientation: Mat33, trackingPosition: Vec3): (r: Mat44)
    ensures Block(r) == trackingOrientation && Translation(r) == trackingPosition && IsHomogeneous(r)
  {
    CreateHomMatrix(trackingOrientation, trackingPosition)
  }

  /** The rows and columns of the tracking orientation. */
  lemma TrackingRows()
    ensures Row(TrackingOrientation, 0) == Vec3(-1.0, 0.0, 0.0) && Col(TrackingOrientation, 0) == Vec3(-1.0, 0.0, 0.0)
    ensures Row(TrackingOrientation, 1) == Vec3(0.0, 0.0, -1.0) && Col(TrackingOrientation, 1) == Vec3(0.0, 0.0, -1.0)
    ensures Row(TrackingOrientation, 2) == Vec3(0.0, -1.0, 0.0) && Col(TrackingOrientation, 2) == Vec3(0.0, -1.0, 0.0)
  {}

  lemma TrackingTranspose() ensures Transpose33(TrackingOrientation) == TrackingOrientation {}
  lemma TrackingDet() ensures Det3(TrackingOrientation) == 1.0 {}
  lemma TrackingAdjugate() ensures Adjugate3(TrackingOrientation) == TrackingOrientation {}
  lemma TrackingSquare() ensures Mul33(TrackingOrientation, TrackingOrientation) == Identity3 { TrackingRows(); }

  /**
   * The tracking orientation is a proper rotation, orthonormal with determinant 1, so the
   * tracking system is right-handed; it is also its own inverse.
   */
  lemma {:induction false} TrackingOrientationProper()
    ensures Transpose33(TrackingOrientation) == TrackingOrientation
    ensures Mul33(Transpose33(TrackingOrientation), TrackingOrientation) == Identity3
    ensures Det3(TrackingOrientation) == 1.0
    ensures Inverse3(TrackingOrientation) == TrackingOrientation
  {
    TrackingTranspose();
    TrackingSquare();
    TrackingDet();
    TrackingAdjugate();
    InverseUnitDet(TrackingOrientation, TrackingOrientation);
  }

  // ---------- M ----------

  /**
   * The extrinsic rotation of genRandomRightHandCoordsSystem and rotationalNoise, written with
   * the cosines and sines of its three angles.
   */
  function EulerMatrix(t: EulerTrig): Mat33 {
    Mat33(t.cy * t.cz, -t.cy * t.sz, t.sy,
          t.cx * t.sz + t.cz * t.sx * t.sy, t.cx * t.cz - t.sx * t.sy * t.sz, -t.cy * t.sx,
          t.sx * t.sz - t.cx * t.cz * t.sy, t.cz * t.sx + t.cx * t.sy * t.sz, t.cx * t.cy)
  }

  /** The cosines and sines of three zero angles. */
  const NoAngle := EulerTrig(1.0, 0.0, 1.0, 0.0, 1.0, 0.0)

  /** With all three angles zero there is no turn. */
  lemma EulerOfNoAngle()
    ensures EulerMatrix(NoAngle) == Identity3
  {}

  /**
   * genRandomPositionEndEffector: each coordinate is a draw times the matching coordinate of
   * trackingPosition, so for a positive trackingPosition the end effector lies in the box
   * spanned by the origin and trackingPosition, upper faces excluded.
   */
  function GenRandomPosition(r0: Draw, r1: Draw, r2: Draw, trackingPosition: Vec3): (p: Vec3)
    ensures 0.0 < trackingPosition.x ==> 0.0 <= p.x < trackingPosition.x
    ensures 0.0 < trackingPosition.y ==> 0.0 <= p.y < trackingPosition.y
    ensures 0.0 < trackingPosition.z ==> 0.0 <= p.z < trackingPosition.z
  {
    Vec3(r0 * trackingPosition.x, r1 * trackingPosition.y, r2 * trackingPosition.z)
  }

  /** Every position of that box is produced by some draws. */
  lemma {:induction false} RandomPositionOnto(p: Vec3, trackingPosition: Vec3)
    requires 0.0 <= p.x < trackingPosition.x && 0.0 <= p.y < trackingPosition.y && 0.0 <= p.z < trackingPosition.z
    ensures exists r0: Draw, r1: Draw, r2: Draw :: GenRandomPosition(r0, r1, r2, trackingPosition) == p
  {
    var r0: Draw, r1: Draw, r2: Draw := DrawFor(p.x, trackingPosition.x), DrawFor(p.y, trackingPosition.y), DrawFor(p.z, trackingPosition.z);
    assert GenRandomPosition(r0, r1, r2, trackingPosition) == p;
  }

  /** The draw that scales `bound` to `v`. */
  function DrawFor(v: real, bound: real): (r: Draw)
    requires 0.0 <= v < bound
    ensures r * bound == v
  {
    var r := v / bound;
    assert r * bound == v;
    assert 0.0 <= r;
    assert r < 1.0;
    r
  }

  /** createMMatrix: the random turn and the random position of the end effector. */
  function MMatrix(d: MeasurementDraws, trackingPosition: Vec3): (m: Mat44)
    ensures IsHomogeneous(m) && Block(m) == EulerMatrix(d.turn)
    ensures 0.0 < trackingPosition.x ==> 0.0 <= m.m03 < trackingPosition.x
    ensures 0.0 < trackingPosition.y ==> 0.0 <= m.m13 < trackingPosition.y
    ensures 0.0 < trackingPosition.z ==> 0.0 <= m.m23 < trackingPosition.z
  {
    CreateHomMatrix(EulerMatrix(d.turn), GenRandomPosition(d.p0, d.p1, d.p2, trackingPosition))
  }

  /** With the fixed tracking position the end effector stays in [0, 10) x [0, 20) x [0, 30). */
  lemma FixedPositionBox(d: MeasurementDraws)
    ensures var m := MMatrix(d, TrackingPosition);
      0.0 <= m.m03 < 10.0 && 0.0 <= m.m13 < 20.0 && 0.0 <= m.m23 < 30.0
  {}

  // ---------- N ----------

  /**
   * transformCoordsFromRobotToTracking: MatrixUtils.inverse(y).operate(v). The inverse of a
   * homogeneous matrix is its rigid inverse; a singular one is refused.
   */
  function RobotToTracking(y: Mat44, v: Vec4): (r: Result<Vec4>)
    requires IsHomogeneous(y)
    ensures r.Err? <==> Det3(Block(y)) == 0.0
    ensures r.Err? ==> r.error == SingularMatrix
    ensures r.Ok? && v.w == 1.0 ==> r.value.w == 1.0 && Apply44(y, r.value) == v
  {
    if Det3(Block(y)) == 0.0 then Err(SingularMatrix)
    else
      var u := Apply44(InvertRigid(y), v);
      assert v.w == 1.0 ==> u.w == 1.0 && Apply44(y, u) == v by {
        if v.w == 1.0 {
          assert v == Point(Xyz(v));
          ApplyAfterUndo(y, Xyz(v));
          HomParts(Inverse3(Block(y)), Neg3(Apply33(Inverse3(Block(y)), Translation(y))), InvertRigid(y));
          ApplyPoint(InvertRigid(y), v);
        }
      }
      Ok(u)
  }

  /** transformPosOfMarkerFromEndEffectorToRobot: the marker's position in robot coordinates. */
  function MarkerInRobot(m: Mat44, markerOffset: Vec3): (r: Vec4)
    ensures IsHomogeneous(m) ==> r == Point(Add3(Apply33(Block(m), markerOffset), Translation(m)))
  {
    var r := Apply44(m, CreateHomVector(markerOffset));
    assert IsHomogeneous(m) ==> r == Point(Add3(Apply33(Block(m), markerOffset), Translation(m))) by {
      if IsHomogeneous(m) { ApplyPoint(m, Point(markerOffset)); }
    }
    r
  }

  /**
   * genPosVecOfN: the marker's position in tracking coordinates. Y maps it back onto the
   * marker's position in robot coordinates, M applied to the marker offset.
   */
  function GenPosVecOfN(m: Mat44, y: Mat44, markerOffset: Vec3): (r: Result<Vec4>)
    requires IsHomogeneous(y)
    ensures r.Err? <==> Det3(Block(y)) == 0.0
    ensures r.Ok? && IsHomogeneous(m) ==> r.value.w == 1.0 && Apply44(y, r.value) == Apply44(m, Point(markerOffset))
  {
    RobotToTracking(y, MarkerInRobot(m, markerOffset))
  }

  /**
   * One column of genRotMatOfN: an axis of the end effector, moved by `trackingPosition` and
   * converted to tracking coordinates.
   */
  function ConvertedAxis(axis: Vec3, y: Mat44, trackingPosition: Vec3): (r: Result<Vec3>)
    requires IsHomogeneous(y)
    ensures r.Err? <==> Det3(Block(y)) == 0.0
  {
    match RobotToTracking(y, CreateHomVector(Add3(axis, trackingPosition)))
    case Err(e) => Err(e)
    case Ok(v) => Ok(Xyz(v))
  }

  /**
   * genRotMatOfN: the orientation of the marker relative to the tracking system, column by
   * column from `orientation` (the field endeffectorAndMarkerOrientation, set by createMMatrix).
   */
  function GenRotMatOfN(orientation: Mat33, y: Mat44, trackingPosition: Vec3): (r: Result<Mat33>)
    requires IsHomogeneous(y)
    ensures r.Err? <==> Det3(Block(y)) == 0.0
  {
    match (ConvertedAxis(Col(orientation, 0), y, trackingPosition),
           ConvertedAxis(Col(orientation, 1), y, trackingPosition),
           ConvertedAxis(Col(orientation, 2), y, trackingPosition))
    case (Ok(c0), Ok(c1), Ok(c2)) => Ok(FromColumns(c0, c1, c2))
    case _ => Err(SingularMatrix)
  }

  /** createNMatrix: the rotation from genRotMatOfN and the position from genPosVecOfN. */
  function CreateNMatrix(orientation: Mat33, m: Mat44, y: Mat44, trackingPosition: Vec3, markerOffset: Vec3): (r: Result<Mat44>)
    requires IsHomogeneous(y)
    ensures r.Err? <==> Det3(Block(y)) == 0.0
    ensures r.Ok? ==> IsHomogeneous(r.value)
    ensures r.Ok? && IsHomogeneous(m) ==> Apply44(y, Point(Translation(r.value))) == Apply44(m, Point(markerOffset))
  {
    match (GenRotMatOfN(orientation, y, trackingPosition), GenPosVecOfN(m, y, markerOffset))
    case (Ok(rot), Ok(pos)) =>
      assert IsHomogeneous(m) ==> Point(Xyz(pos)) == pos;
      Ok(CreateHomMatrix(rot, Xyz(pos)))
    case _ => Err(SingularMatrix)
  }

  /**
   * When Y is placed at the tracking position the axes are moved from, the move cancels and
   * the axis is only turned back: Y's block inverted, applied to the axis.
   */
  lemma {:induction false} ConvertedAxisTurns(axis: Vec3, t: Mat33, p: Vec3)
    requires Det3(t) != 0.0
    ensures ConvertedAxis(axis, CreateYMatrix(t, p), p) == Ok(Apply33(Inverse3(t), axis))
  {
    var y := HomMatrix(t, p);
    var ti := Inverse3(t);
    HomParts(t, p, y);
    assert InvertRigid(y) == HomMatrix(ti, Neg3(Apply33(ti, p)));
    HomApply(ti, Neg3(Apply33(ti, p)), Add3(axis, p));
    ApplyLinear(ti, axis, p);
    assert Add3(Add3(Apply33(ti, axis), Apply33(ti, p)), Neg3(Apply33(ti, p))) == Apply33(ti, axis);
  }

  /** So genRotMatOfN is the inverted block of Y times the end effector's orientation. */
  lemma {:induction false} RotMatOfNTurns(orientation: Mat33, t: Mat33, p: Vec3)
    requires Det3(t) != 0.0
    ensures GenRotMatOfN(orientation, CreateYMatrix(t, p), p) == Ok(Mul33(Inverse3(t), orientation))
  {
    HomParts(t, p, HomMatrix(t, p));
    ConvertedAxisTurns(Col(orientation, 0), t, p);
    ConvertedAxisTurns(Col(orientation, 1), t, p);
    ConvertedAxisTurns(Col(orientation, 2), t, p);
    MulColumns(Inverse3(t), orientation);
  }

  /**
   * The N of one measurement before noise: createNMatrix of M and Y, where the orientation
   * genRotMatOfN reads is M's own block. With an invertible orientation of the tracking system
   * it never fails.
   */
  function MeasuredN(m: Mat44, t: Mat33, p: Vec3, markerOffset: Vec3): (n: Mat44)
    requires IsHomogeneous(m) && Det3(t) != 0.0
    ensures IsHomogeneous(n)
    ensures CreateNMatrix(Block(m), m, CreateYMatrix(t, p), p, markerOffset) == Ok(n)
  {
    CreateNMatrix(Block(m), m, CreateYMatrix(t, p), p, markerOffset).value
  }

  /**
   * The calibration equation M·X = Y·N holds exactly for M and the N that createNMatrix builds
   * from it, for every invertible orientation of the tracking system (right-handed or not),
   * every tracking position and every marker offset.
   */
  lemma {:induction false} MeasuredSolvesCalibration(m: Mat44, t: Mat33, p: Vec3, markerOffset: Vec3)
    requires IsHomogeneous(m) && Det3(t) != 0.0
    ensures Mul44(m, CreateXMatrix(markerOffset)) == Mul44(CreateYMatrix(t, p), MeasuredN(m, t, p, markerOffset))
  {
    var n := MeasuredN(m, t, p, markerOffset);
    var rm, tm := Block(m), Translation(m);
    HomParts(t, p, HomMatrix(t, p));
    RotMatOfNTurns(rm, t, p);
    var bn := Mul33(Inverse3(t), rm);
    var tn := Translation(n);
    assert Block(n) == bn;
    HomParts(rm, tm, m);
    HomParts(bn, tn, n);
    // rotations: the block of Y undoes the inverted block
    HomMul(rm, tm, Identity3, markerOffset);
    MulIdentity(rm);
    HomMul(t, p, bn, tn);
    UndoTurn(t, rm);
    // translations: both sides put the marker at M applied to the marker offset
    HomApply(t, p, tn);
    ApplyPoint(m, Point(markerOffset));
  }

  // ---------- noise ----------

  /** rotationalNoise: the block is turned by a small extrinsic rotation; nothing else changes. */
  function RotationalNoise(h: Mat44, turn: EulerTrig): (r: Mat44)
    ensures Block(r) == Mul33(EulerMatrix(turn), Block(h))
    ensures Translation(r) == Translation(h) && Row4(r, 3) == Row4(h, 3)
  {
    SetBlock(h, Mul33(EulerMatrix(turn), Block(h)))
  }

  /**
   * translationalNoise: each translation entry moves by 2·(0.5 - r), a shift in (-1, 1];
   * every other entry stays.
   */
  function TranslationalNoise(h: Mat44, r0: Draw, r1: Draw, r2: Draw): (r: Mat44)
    ensures -1.0 < r.m03 - h.m03 <= 1.0 && -1.0 < r.m13 - h.m13 <= 1.0 && -1.0 < r.m23 - h.m23 <= 1.0
    ensures r.(m03 := h.m03, m13 := h.m13, m23 := h.m23) == h
  {
    h.(m03 := h.m03 + 2.0 * (0.5 - r0), m13 := h.m13 + 2.0 * (0.5 - r1), m23 := h.m23 + 2.0 * (0.5 - r2))
  }

  /** Every shift in (-1, 1] of the translation is produced by some draws. */
  lemma {:induction false} TranslationalNoiseOnto(h: Mat44, d: Vec3)
    requires -1.0 < d.x <= 1.0 && -1.0 < d.y <= 1.0 && -1.0 < d.z <= 1.0
    ensures exists r0: Draw, r1: Draw, r2: Draw ::
      Translation(TranslationalNoise(h, r0, r1, r2)) == Add3(Translation(h), d)
  {
    var r0: Draw, r1: Draw, r2: Draw := (1.0 - d.x) / 2.0, (1.0 - d.y) / 2.0, (1.0 - d.z) / 2.0;
    assert Translation(TranslationalNoise(h, r0, r1, r2)) == Add3(Translation(h), d);
  }

  /** Both kinds of noise on one N, in the order createNoise applies them. */
  function AddNoise(h: Mat44, d: NoiseDraws): (r: Mat44)
    ensures IsHomogeneous(h) ==> IsHomogeneous(r)
    ensures -1.0 < r.m03 - h.m03 <= 1.0 && -1.0 < r.m13 - h.m13 <= 1.0 && -1.0 < r.m23 - h.m23 <= 1.0
  {
    TranslationalNoise(RotationalNoise(h, d.turn), d.s0, d.s1, d.s2)
  }

  /** The noise turns the block of N by the small rotation and shifts each translation entry by 1 - 2r. */
  lemma NoiseTurnsBlock(h: Mat44, d: NoiseDraws)
    ensures Block(AddNoise(h, d)) == Mul33(EulerMatrix(d.turn), Block(h))
    ensures Translation(AddNoise(h, d)) == Add3(Translation(h), Vec3(1.0 - 2.0 * d.s0, 1.0 - 2.0 * d.s1, 1.0 - 2.0 * d.s2))
  {}

  /** Rotational noise by no angle leaves N as it was. */
  lemma NoTurn(h: Mat44)
    ensures RotationalNoise(h, NoAngle) == h
  {
    EulerOfNoAngle();
    IdentityTurn(h, NoAngle);
  }

  /** A turn whose matrix is the identity changes nothing. */
  lemma IdentityTurn(h: Mat44, t: EulerTrig)
    requires EulerMatrix(t) == Identity3
    ensures RotationalNoise(h, t) == h
  {
    MulIdentity(Block(h));
  }

  /** With no turn and the draws 0.5 the noise leaves N as it was. */
  lemma {:induction false} NoNoise(h: Mat44, d: NoiseDraws)
    requires d.turn == NoAngle && d.s0 == d.s1 == d.s2 == 0.5
    ensures AddNoise(h, d) == h
  {
    NoTurn(h);
  }

  /** createNoise over a whole list: the k-th N gets the k-th noise draws. */
  function Noisy(ns: seq<Mat44>, noise: nat -> NoiseDraws): (r: seq<Mat44>)
    ensures |r| == |ns|
  {
    seq(|ns|, k requires 0 <= k < |ns| => AddNoise(ns[k], noise(k)))
  }

  /** The noisy list keeps every N homogeneous and within (-1, 1] of its exact translation. */
  lemma {:induction false} NoisyClose(ns: seq<Mat44>, noise: nat -> NoiseDraws, k: nat)
    requires k < |ns|
    ensures IsHomogeneous(ns[k]) ==> IsHomogeneous(Noisy(ns, noise)[k])
    ensures var d := Sub3(Translation(Noisy(ns, noise)[k]), Translation(ns[k]));
      -1.0 < d.x <= 1.0 && -1.0 < d.y <= 1.0 && -1.0 < d.z <= 1.0
  {
    assert Noisy(ns, noise)[k] == AddNoise(ns[k], noise(k));
  }

  // ---------- measurement lists ----------

  /** The M matrices of `count` measurements drawn from `draws`. */
  function Ms(draws: nat -> MeasurementDraws, count: nat, p: Vec3): (r: seq<Mat44>)
    ensures |r| == count
  {
    seq(count, i requires 0 <= i < count => MMatrix(draws(i), p))
  }

  /** Their exact N matrices. */
  function Ns(draws: nat -> MeasurementDraws, count: nat, t: Mat33, p: Vec3, markerOffset: Vec3): (r: seq<Mat44>)
    requires Det3(t) != 0.0
    ensures |r| == count
  {
    seq(count, i requires 0 <= i < count => MeasuredN(MMatrix(draws(i), p), t, p, markerOffset))
  }

  /** Copies of one matrix. */
  function Copies(h: Mat44, count: nat): (r: seq<Mat44>)
    ensures |r| == count && forall i :: 0 <= i < count ==> r[i] == h
  {
    seq(count, i requires 0 <= i < count => h)
  }

  /** Every pair of generated M and exact N solves the calibration equation. */
  lemma {:induction false} GeneratedSolveCalibration(draws: nat -> MeasurementDraws, count: nat, i: nat,
                                                     t: Mat33, p: Vec3, markerOffset: Vec3)
    requires i < count && Det3(t) != 0.0
    ensures Mul44(Ms(draws, count, p)[i], CreateXMatrix(markerOffset)) == Mul44(CreateYMatrix(t, p), Ns(draws, count, t, p, markerOffset)[i])
  {
    assert Ms(draws, count, p)[i] == MMatrix(draws(i), p);
    MeasuredSolvesCalibration(MMatrix(draws(i), p), t, p, markerOffset);
  }

  /** One more measurement extends the M list by its M. */
  lemma {:induction false} MsStep(draws: nat -> MeasurementDraws, count: nat, p: Vec3)
    ensures Ms(draws, count + 1, p) == Ms(draws, count, p) + [MMatrix(draws(count), p)]
  {
    assert Ms(draws, count + 1, p) == Ms(draws, count, p) + [MMatrix(draws(count), p)];
  }

  /** One more measurement extends the N list by its N. */
  lemma {:induction false} NsStep(draws: nat -> MeasurementDraws, count: nat, t: Mat33, p: Vec3, markerOffset: Vec3)
    requires Det3(t) != 0.0
    ensures Ns(draws, count + 1, t, p, markerOffset) == Ns(draws, count, t, p, markerOffset) + [MeasuredN(MMatrix(draws(count), p), t, p, markerOffset)]
  {
    assert Ns(draws, count + 1, t, p, markerOffset) == Ns(draws, count, t, p, markerOffset) + [MeasuredN(MMatrix(draws(count), p), t, p, markerOffset)];
  }

  /** One more copy. */
  lemma CopiesStep(h: Mat44, count: nat)
    ensures Copies(h, count + 1) == Copies(h, count) + [h]
  {}

  /**
   * The generator's state. The random source of the Java object becomes the draws each method
   * is given; its final fields are constants set by the constructor.
   */
  class TestDataGenerator {
    const trackingPosition: Vec3
    const trackingOrientation: Mat33
    const markersPositionRelativeToEndeffector: Vec3
    /** Set by createMMatrix; null (None) until the first measurement. */
    var endeffectorPosition: Option<Vec3>
    var endeffectorAndMarkerOrientation: Option<Mat33>
    var listM: seq<Mat44>
    var listX: seq<Mat44>
    var listY: seq<Mat44>
    var listN: seq<Mat44>

    /**
     * The four lists grow in lockstep, X and Y are always the fixed matrices, M and N are
     * homogeneous, and Y can be inverted.
     */
    ghost predicate Valid()
      reads this
    {
      Det3(trackingOrientation) != 0.0
      && |listM| == |listX| == |listY| == |listN|
      && listX == Copies(CreateXMatrix(markersPositionRelativeToEndeffector), |listX|)
      && listY == Copies(CreateYMatrix(trackingOrientation, trackingPosition), |listY|)
      && (forall i :: 0 <= i < |listM| ==> IsHomogeneous(listM[i]))
      && (forall i :: 0 <= i < |listN| ==> IsHomogeneous(listN[i]))
    }

    constructor()
      ensures Valid()
      ensures trackingPosition == TrackingPosition && trackingOrientation == TrackingOrientation
      ensures markersPositionRelativeToEndeffector == MarkerOffset
      ensures listM == [] && listX == [] && listY == [] && listN == []
      ensures endeffectorPosition == None && endeffectorAndMarkerOrientation == None
    {
      trackingPosition := TrackingPosition;
      trackingOrientation := TrackingOrientation;
      markersPositionRelativeToEndeffector := MarkerOffset;
      endeffectorPosition := None;
      endeffectorAndMarkerOrientation := None;
      listM, listX, listY, listN := [], [], [], [];
      TrackingDet();
    }

    /** createMMatrix: a random pose of the robot; its turn and position are kept in the fields. */
    method CreateMMatrix(d: MeasurementDraws) returns (m: Mat44)
      modifies this
      ensures m == MMatrix(d, trackingPosition)
      ensures endeffectorAndMarkerOrientation == Some(Block(m)) && endeffectorPosition == Some(Translation(m))
      ensures listM == old(listM) && listX == old(listX) && listY == old(listY) && listN == old(listN)
    {
      var rotMat := EulerMatrix(d.turn);
      endeffectorAndMarkerOrientation := Some(rotMat);
      var posVec := GenRandomPosition(d.p0, d.p1, d.p2, trackingPosition);
      endeffectorPosition := Some(posVec);
      m := CreateHomMatrix(rotMat, posVec);
    }

    /** addMeasurement: exactly one new matrix at the end of each of the four lists. */
    method AddMeasurement(d: MeasurementDraws)
      requires Valid()
      modifies this
      ensures Valid()
      ensures listM == old(listM) + [MMatrix(d, trackingPosition)]
      ensures listX == old(listX) + [CreateXMatrix(markersPositionRelativeToEndeffector)]
      ensures listY == old(listY) + [CreateYMatrix(trackingOrientation, trackingPosition)]
      ensures listN == old(listN) + [MeasuredN(MMatrix(d, trackingPosition), trackingOrientation, trackingPosition, markersPositionRelativeToEndeffector)]
      ensures endeffectorAndMarkerOrientation == Some(Block(MMatrix(d, trackingPosition)))
      ensures endeffectorPosition == Some(Translation(MMatrix(d, trackingPosition)))
    {
      var y := CreateYMatrix(trackingOrientation, trackingPosition);
      var x := CreateXMatrix(markersPositionRelativeToEndeffector);
      var m := CreateMMatrix(d);
      var n := CreateNMatrix(endeffectorAndMarkerOrientation.value, m, y, trackingPosition, markersPositionRelativeToEndeffector);
      assert n == Ok(MeasuredN(m, trackingOrientation, trackingPosition, markersPositionRelativeToEndeffector));
      CopiesStep(x, |listX|);
      CopiesStep(y, |listY|);
      listY := listY + [y];
      listX := listX + [x];
      listM := listM + [m];
      listN := listN + [n.value];
    }

    /** createNoise: every N of the list gets its own noise, in place. */
    method CreateNoise(noise: nat -> NoiseDraws)
      requires Valid()
      modifies this
      ensures Valid()
      ensures listN == Noisy(old(listN), noise)
      ensures listM == old(listM) && listX == old(listX) && listY == old(listY)
      ensures endeffectorPosition == old(endeffectorPosition)
      ensures endeffectorAndMarkerOrientation == old(endeffectorAndMarkerOrientation)
    {
      ghost var exact := listN;
      var i := 0;
      while i < |listN|
        invariant 0 <= i <= |listN| == |exact|
        invariant forall k :: 0 <= k < i ==> listN[k] == AddNoise(exact[k], noise(k))
        invariant forall k :: i <= k < |listN| ==> listN[k] == exact[k]
        invariant forall k :: 0 <= k < |listN| ==> IsHomogeneous(listN[k])
        invariant listM == old(listM) && listX == old(listX) && listY == old(listY)
        invariant endeffectorPosition == old(endeffectorPosition)
        invariant endeffectorAndMarkerOrientation == old(endeffectorAndMarkerOrientation)
      {
        var matrix := RotationalNoise(listN[i], noise(i).turn);
        matrix := TranslationalNoise(matrix, noise(i).s0, noise(i).s1, noise(i).s2);
        listN := listN[i := matrix];
        i := i + 1;
      }
      assert listN == Noisy(exact, noise);
    }

    /**
     * generateTestData: `numberOfMeasurements` new measurements (none when it is not positive),
     * then noise on every N in the list, and the four lists in the order M, X, Y, N.
     */
    method GenerateTestData(numberOfMeasurements: int, draws: nat -> MeasurementDraws, noise: nat -> NoiseDraws)
      returns (measurementList: seq<seq<Mat44>>)
      requires Valid()
      modifies this
      ensures Valid()
      ensures measurementList == [listM, listX, listY, listN]
      ensures var count := if numberOfMeasurements < 0 then 0 else numberOfMeasurements;
        listM == old(listM) + Ms(draws, count, trackingPosition)
        && listX == old(listX) + Copies(CreateXMatrix(markersPositionRelativeToEndeffector), count)
        && listY == old(listY) + Copies(CreateYMatrix(trackingOrientation, trackingPosition), count)
        && listN == Noisy(old(listN) + Ns(draws, count, trackingOrientation, trackingPosition, markersPositionRelativeToEndeffector), noise)
    {
      AddMeasurements(numberOfMeasurements, draws);
      CreateNoise(noise);
      measurementList := [listM, listX, listY, listN];
    }

    /** The counting loop of generateTestData: one addMeasurement per count. */
    method AddMeasurements(numberOfMeasurements: int, draws: nat -> MeasurementDraws)
      requires Valid()
      modifies this
      ensures Valid()
      ensures var count := if numberOfMeasurements < 0 then 0 else numberOfMeasurements;
        listM == old(listM) + Ms(draws, count, trackingPosition)
        && listX == old(listX) + Copies(CreateXMatrix(markersPositionRelativeToEndeffector), count)
        && listY == old(listY) + Copies(CreateYMatrix(trackingOrientation, trackingPosition), count)
        && listN == old(listN) + Ns(draws, count, trackingOrientation, trackingPosition, markersPositionRelativeToEndeffector)
    {
      ghost var x, y := CreateXMatrix(markersPositionRelativeToEndeffector), CreateYMatrix(trackingOrientation, trackingPosition);
      var cnt := 0;
      assert Ms(draws, 0, trackingPosition) == [] && Copies(x, 0) == [] && Copies(y, 0) == [];
      assert Ns(draws, 0, trackingOrientation, trackingPosition, markersPositionRelativeToEndeffector) == [];
      while cnt < numberOfMeasurements
        invariant Valid()
        invariant cnt == 0 || 0 < cnt <= numberOfMeasurements
        invariant listM == old(listM) + Ms(draws, cnt, trackingPosition)
        invariant listX == old(listX) + Copies(x, cnt)
        invariant listY == old(listY) + Copies(y, cnt)
        invariant listN == old(listN) + Ns(draws, cnt, trackingOrientation, trackingPosition, markersPositionRelativeToEndeffector)
      {
        AddMeasurement(draws(cnt));
        MsStep(draws, cnt, trackingPosition);
        NsStep(draws, cnt, trackingOrientation, trackingPosition, markersPositionRelativeToEndeffector);
        CopiesStep(x, cnt);
        CopiesStep(y, cnt);
        cnt := cnt + 1;
      }
    }
  }
}
