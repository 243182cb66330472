/**
 * CuttingLogic: the pieces of the cutting planner that are worked out, namely the neutral and
 * auxiliary points beside the styrofoam cylinder, the flag that says a cut is running, the
 * holder robot's default pose and its pose turned for a facet, and the choice of the point
 * where a cut starts.
 */
module CuttingLogic {
  import opened Wrappers
  import opened Linear
  import opened Homogeneous
  import opened JavaStrings
  import TC = TransformCoords
  import RM = RobotMovement
  import T = Triangle

  const RadiusStyroCylinder := 200.0
  const HeightStyroCylinder := 400.0
  const HeightStyroHolder := 13.0
  const AssemblyZoneHeight := 30.0
  /** 10^-5, the tolerance of rotationAngle. */
  const Accuracy := 0.00001
  /** The gap between the cylinder and the cutting tool at the neutral and auxiliary points. */
  const Offset := 100.0
  const DefaultPoseRefused := "[CuttingLogic] Robot couldn't move into default pose."

  // ---------- the neutral and auxiliary points ----------

  /** The neutral point, relative to the workspace, in front of the cylinder at negative y. */
  function NeutralPoint(): (r: Vec4)
    ensures r == Vec4(-300.0, -300.0, 513.0, 1.0)
  {
    Vec4((-1.0) * (RadiusStyroCylinder + Offset), (-1.0) * (RadiusStyroCylinder + Offset),
         HeightStyroHolder + HeightStyroCylinder + Offset, 1.0)
  }

  /** The auxiliary point, the same at positive y. */
  function AuxiliaryPoint(): (r: Vec4)
    ensures r == Vec4(-300.0, 300.0, 513.0, 1.0)
  {
    Vec4((-1.0) * (RadiusStyroCylinder + Offset), RadiusStyroCylinder + Offset,
         HeightStyroHolder + HeightStyroCylinder + Offset, 1.0)
  }

  /** The two points are mirror images in the plane y = 0, at a clear distance above the cylinder. */
  lemma NeutralMirrorsAuxiliary()
    ensures AuxiliaryPoint() == NeutralPoint().(y := -NeutralPoint().y)
    ensures NeutralPoint().z == HeightStyroHolder + HeightStyroCylinder + Offset
    ensures NeutralPoint().x < -RadiusStyroCylinder && NeutralPoint().y < -RadiusStyroCylinder
  {}

  // ---------- the angle of a facet ----------

  /** Vector2D.angle(u, v) for non-zero vectors, which the model receives as a parameter. */
  type VectorAngle = (real, real, real, real) -> real

  /** Vector2D.angle: refused for a vector of norm zero. */
  function Angle2D(ux: real, uy: real, vx: real, vy: real, angle: VectorAngle): (r: Result<real>)
    ensures r.Err? <==> (ux == 0.0 && uy == 0.0) || (vx == 0.0 && vy == 0.0)
  {
    if (ux == 0.0 && uy == 0.0) || (vx == 0.0 && vy == 0.0) then Err(ZeroNorm)
    else Ok(angle(ux, uy, vx, vy))
  }

  predicate NearlyVertical(normal: Vec3) {
    RM.Abs(normal.x) < Accuracy && RM.Abs(normal.y) < Accuracy
  }

  /**
   * rotationAngle as written: the angle to the negative y axis is asked for exactly when the
   * normal is (nearly) parallel to the z axis, and 0 is returned for every other normal.
   */
  function RotationAngleAsWritten(normal: Vec3, angle: VectorAngle): Result<real> {
    if NearlyVertical(normal) then Angle2D(0.0, -1.0, normal.x, normal.y, angle)
    else Ok(0.0)
  }

  /**
   * As written, every normal that is not nearly vertical gets the angle 0, and a nearly
   * vertical one makes the angle computation fail exactly when it points straight along z: so a
   * facet facing straight up fails, and a facet facing along x is not turned at all.
   */
  lemma AsWrittenAngleFails(normal: Vec3, angle: VectorAngle)
    ensures !NearlyVertical(normal) ==> RotationAngleAsWritten(normal, angle) == Ok(0.0)
    ensures NearlyVertical(normal) ==>
      (RotationAngleAsWritten(normal, angle).Err? <==> normal.x == 0.0 && normal.y == 0.0)
    ensures RotationAngleAsWritten(Vec3(0.0, 0.0, 1.0), angle) == Err(ZeroNorm)
    ensures RotationAngleAsWritten(Vec3(1.0, 0.0, 0.0), angle) == Ok(0.0)
  {}

  /** rotationAngle with the guard the comment describes: a vertical normal needs no turn. */
  function RotationAngle(normal: Vec3, angle: VectorAngle): real {
    if NearlyVertical(normal) then 0.0 else angle(0.0, -1.0, normal.x, normal.y)
  }

  /**
   * The corrected guard never hands a zero vector to Vector2D.angle: it returns 0 for a nearly
   * vertical normal and otherwise the angle between the negative y axis and a non-zero vector.
   */
  lemma RotationAngleDefined(normal: Vec3, angle: VectorAngle)
    ensures NearlyVertical(normal) ==> RotationAngle(normal, angle) == 0.0
    ensures !NearlyVertical(normal) ==>
      Angle2D(0.0, -1.0, normal.x, normal.y, angle) == Ok(RotationAngle(normal, angle))
  {}

  // ---------- the turned pose of the holder robot ----------

  /** calcRotationMatrix for c = cos(angle) and s = sin(angle): a turn about the x axis. */
  function CalcRotationMatrix(c: real, s: real): Mat44 {
    Mat44(1.0, 0.0, 0.0, 0.0,
          0.0, c, -s, 0.0,
          0.0, s, c, 0.0,
          0.0, 0.0, 0.0, 1.0)
  }

  /** The turn about the x axis in the plane, on its own. */
  function TurnAboutX(c: real, s: real): Mat33 {
    Mat33(1.0, 0.0, 0.0, 0.0, c, -s, 0.0, s, c)
  }

  /** The products of the turn with its transpose, for any c and s. */
  lemma TurnGram(c: real, s: real)
    ensures var k := c * c + s * s;
      Mul33(Transpose33(TurnAboutX(c, s)), TurnAboutX(c, s)) == Mat33(1.0, 0.0, 0.0, 0.0, k, 0.0, 0.0, 0.0, k)
      && Mul33(TurnAboutX(c, s), Transpose33(TurnAboutX(c, s))) == Mat33(1.0, 0.0, 0.0, 0.0, k, 0.0, 0.0, 0.0, k)
      && Det3(TurnAboutX(c, s)) == k
  {
    var u, v, w := Vec3(1.0, 0.0, 0.0), Vec3(0.0, c, s), Vec3(0.0, -s, c);
    var p, q := Vec3(0.0, c, -s), Vec3(0.0, s, c);
    assert Dot3(v, v) == c * c + s * s && Dot3(w, w) == c * c + s * s && Dot3(v, w) == 0.0 && Dot3(w, v) == 0.0;
    assert Dot3(p, p) == c * c + s * s && Dot3(q, q) == c * c + s * s && Dot3(p, q) == 0.0 && Dot3(q, p) == 0.0;
    assert Dot3(u, u) == 1.0 && Dot3(u, v) == 0.0 && Dot3(u, w) == 0.0 && Dot3(v, u) == 0.0 && Dot3(w, u) == 0.0;
    assert Dot3(u, p) == 0.0 && Dot3(u, q) == 0.0 && Dot3(p, u) == 0.0 && Dot3(q, u) == 0.0;
    assert Det3(TurnAboutX(c, s)) == c * c - (-s) * s;
  }

  /** c^2 + s^2 = 1 makes the turn orthonormal with determinant 1. */
  lemma {:induction false} TurnOrthonormal(c: real, s: real)
    requires c * c + s * s == 1.0
    ensures Mul33(Transpose33(TurnAboutX(c, s)), TurnAboutX(c, s)) == Identity3
    ensures Mul33(TurnAboutX(c, s), Transpose33(TurnAboutX(c, s))) == Identity3
    ensures Det3(TurnAboutX(c, s)) == 1.0
  {
    TurnGram(c, s);
  }

  /** The matrix is the turn with no translation. */
  lemma RotationMatrixIsTurn(c: real, s: real)
    ensures CalcRotationMatrix(c, s) == HomMatrix(TurnAboutX(c, s), Zero3)
  {}

  /** Points of the x axis stay where they are. */
  lemma RotationKeepsXAxis(c: real, s: real, x: real)
    ensures Apply44(CalcRotationMatrix(c, s), Point(Vec3(x, 0.0, 0.0))) == Point(Vec3(x, 0.0, 0.0))
  {}

  /** Angle 0 (cosine 1, sine 0) gives the identity. */
  lemma RotationOfNoAngle()
    ensures CalcRotationMatrix(1.0, 0.0) == Identity44
  {}

  /** calcPoseHolderRobot: the default pose turned by the rotation about its own x axis. */
  function CalcPoseHolderRobot(defaultPose: Mat44, rotationMatrix: Mat44): Mat44 {
    Mul44(defaultPose, rotationMatrix)
  }

  /**
   * Turning a homogeneous default pose keeps its position and bottom row and turns only its
   * orientation.
   */
  lemma {:induction false} PoseHolderRobotTurnsInPlace(defaultPose: Mat44, c: real, s: real)
    requires IsHomogeneous(defaultPose)
    ensures var p := CalcPoseHolderRobot(defaultPose, CalcRotationMatrix(c, s));
      p == HomMatrix(Mul33(Block(defaultPose), TurnAboutX(c, s)), Translation(defaultPose))
  {
    HomParts(Block(defaultPose), Translation(defaultPose), defaultPose);
    RotationMatrixIsTurn(c, s);
    HomMulNoTranslation(Block(defaultPose), Translation(defaultPose), TurnAboutX(c, s));
  }

  /** The turn by angle 0 leaves the default pose as it is. */
  lemma PoseHolderRobotUnturned(defaultPose: Mat44)
    ensures CalcPoseHolderRobot(defaultPose, CalcRotationMatrix(1.0, 0.0)) == defaultPose
  {
    assert CalcRotationMatrix(1.0, 0.0) == Identity44;
  }

  /** The holder robot's pose for one facet: the default pose turned by the facet's angle. */
  function HolderPose(tr: T.Triangle, defaultPose: Mat44, angle: VectorAngle,
                      cos: real -> real, sin: real -> real): Mat44 {
    var a := RotationAngle(T.GetNormal(tr), angle);
    CalcPoseHolderRobot(defaultPose, CalcRotationMatrix(cos(a), sin(a)))
  }

  /** The holder robot's pose for each facet, in order. */
  function HolderPoses(triangles: seq<T.Triangle>, defaultPose: Mat44, angle: VectorAngle,
                       cos: real -> real, sin: real -> real): (r: seq<Mat44>)
    ensures |r| == |triangles|
  {
    if |triangles| == 0 then []
    else
      HolderPoses(triangles[..|triangles| - 1], defaultPose, angle, cos, sin)
        + [HolderPose(triangles[|triangles| - 1], defaultPose, angle, cos, sin)]
  }

  /** The commands moving a robot to the poses, in order. */
  function PoseCommands(poses: seq<Mat44>, show: real -> string): (r: seq<string>)
    ensures |r| == |poses|
  {
    if |poses| == 0 then []
    else PoseCommands(poses[..|poses| - 1], show) + [RM.MoveCommand(poses[|poses| - 1], show)]
  }

  /** The i-th pose is the i-th facet's. */
  lemma {:induction false} HolderPosesAt(triangles: seq<T.Triangle>, defaultPose: Mat44, angle: VectorAngle,
                                         cos: real -> real, sin: real -> real, i: nat)
    requires i < |triangles|
    ensures HolderPoses(triangles, defaultPose, angle, cos, sin)[i] == HolderPose(triangles[i], defaultPose, angle, cos, sin)
    decreases |triangles|
  {
    var n := |triangles| - 1;
    if i < n {
      HolderPosesAt(triangles[..n], defaultPose, angle, cos, sin, i);
    }
  }

  /** The i-th command moves to the i-th pose. */
  lemma {:induction false} PoseCommandsAt(poses: seq<Mat44>, show: real -> string, i: nat)
    requires i < |poses|
    ensures PoseCommands(poses, show)[i] == RM.MoveCommand(poses[i], show)
    decreases |poses|
  {
    var n := |poses| - 1;
    if i < n {
      PoseCommandsAt(poses[..n], show, i);
    }
  }

  /** One more facet adds the command for its pose after those already sent. */
  lemma {:induction false} TriangleCommandsStep(sent: seq<string>, tris: seq<T.Triangle>, cnt: nat, defaultPose: Mat44,
                                                angle: VectorAngle, cos: real -> real, sin: real -> real, show: real -> string)
    requires cnt < |tris|
    ensures sent + PoseCommands(HolderPoses(tris[..cnt + 1], defaultPose, angle, cos, sin), show)
      == sent + PoseCommands(HolderPoses(tris[..cnt], defaultPose, angle, cos, sin), show)
         + [RM.MoveCommand(HolderPose(tris[cnt], defaultPose, angle, cos, sin), show)]
  {
    assert tris[..cnt + 1][..cnt] == tris[..cnt];
  }

  /** Every facet's pose keeps the default pose's position and stays homogeneous. */
  lemma {:induction false} HolderPosesKeepPosition(triangles: seq<T.Triangle>, defaultPose: Mat44, angle: VectorAngle,
                                                   cos: real -> real, sin: real -> real, i: nat)
    requires IsHomogeneous(defaultPose) && i < |triangles|
    ensures var p := HolderPoses(triangles, defaultPose, angle, cos, sin)[i];
      IsHomogeneous(p) && Translation(p) == Translation(defaultPose)
  {
    var a := RotationAngle(T.GetNormal(triangles[i]), angle);
    var p := HolderPoses(triangles, defaultPose, angle, cos, sin)[i];
    HolderPosesAt(triangles, defaultPose, angle, cos, sin, i);
    PoseHolderRobotTurnsInPlace(defaultPose, cos(a), sin(a));
    HomParts(Mul33(Block(defaultPose), TurnAboutX(cos(a), sin(a))), Translation(defaultPose), p);
  }

  // ---------- the start point of the first cut ----------

  const BottomLeft := Vec3(-RadiusStyroCylinder, -RadiusStyroCylinder, HeightStyroHolder + AssemblyZoneHeight)
  const BottomRight := Vec3(-RadiusStyroCylinder, RadiusStyroCylinder, HeightStyroHolder + AssemblyZoneHeight)
  const TopLeft := Vec3(-RadiusStyroCylinder, -RadiusStyroCylinder,
                        HeightStyroCylinder + HeightStyroHolder + AssemblyZoneHeight)
  const TopRight := Vec3(-RadiusStyroCylinder, RadiusStyroCylinder,
                         HeightStyroCylinder + HeightStyroHolder + AssemblyZoneHeight)

  predicate OnLeftEdge(p: Vec3) { BottomLeft.z <= p.z <= TopLeft.z }

  predicate OnRightEdge(p: Vec3) { BottomRight.z <= p.z <= TopRight.z }

  /**
   * The start point of the first cut from the plane's intersections with the left and right
   * edges of the cylinder's outline (Plane.intersection gives none for a parallel line, and
   * reading a missing point fails): the left one, unless both lie on their edges and the
   * right one is higher.
   */
  function StartPoint(intersectLeftLine: Option<Vec3>, intersectRightLine: Option<Vec3>): (r: Result<Vec3>)
    ensures intersectLeftLine.None? ==> r == Err(NullPointer(TC.NoMessage))
  {
    match intersectLeftLine
    case None => Err(NullPointer(TC.NoMessage))
    case Some(left) =>
      if OnLeftEdge(left) then
        match intersectRightLine
        case None => Err(NullPointer(TC.NoMessage))
        case Some(right) =>
          if OnRightEdge(right) then Ok(if left.z >= right.z then left else right) else Ok(left)
      else Ok(left)
  }

  /** Both edges run from z = 43 to z = 443. */
  lemma EdgeHeights()
    ensures BottomLeft.z == BottomRight.z == 43.0 && TopLeft.z == TopRight.z == 443.0
  {}

  /**
   * The start point is one of the two intersections; with both on their edges it is the higher
   * one (the left on a tie), otherwise the left one.
   */
  lemma StartPointChoice(left: Vec3, right: Vec3)
    ensures var r := StartPoint(Some(left), Some(right));
      r.Ok? && (r.value == left || r.value == right)
    ensures OnLeftEdge(left) && OnRightEdge(right) ==>
      StartPoint(Some(left), Some(right)).value.z == if left.z >= right.z then left.z else right.z
    ensures StartPoint(Some(left), Some(right)) == Ok(right) && right != left ==>
      OnLeftEdge(left) && OnRightEdge(right) && right.z > left.z
  {}

  /**
   * Plane.intersection with a Line: the point where the line through `a` and `b` meets the
   * plane through `p` with normal `n`, or none when the line runs parallel to the plane.
   */
  function Intersection(p: Vec3, n: Vec3, a: Vec3, b: Vec3): (r: Option<Vec3>)
    ensures r.None? <==> Dot3(n, Sub3(b, a)) == 0.0
  {
    var d := Sub3(b, a);
    if Dot3(n, d) == 0.0 then None else Some(Add3(a, Scale3(Dot3(n, Sub3(p, a)) / Dot3(n, d), d)))
  }

  /** n·(a + k·(b - a) - p) split into n·(a - p) + k·(n·(b - a)). */
  lemma {:induction false} OffsetFromPlane(p: Vec3, n: Vec3, a: Vec3, b: Vec3, k: real)
    ensures Dot3(n, Sub3(Add3(a, Scale3(k, Sub3(b, a))), p)) == -Dot3(n, Sub3(p, a)) + k * Dot3(n, Sub3(b, a))
  {
    var d := Sub3(b, a);
    assert Sub3(Add3(a, Scale3(k, d)), p) == Add3(Neg3(Sub3(p, a)), Scale3(k, d));
    DotAdd(n, Neg3(Sub3(p, a)), Scale3(k, d));
    DotNeg(n, Sub3(p, a));
    DotScaleRight(k, n, d);
  }

  /** The intersection lies in the plane and on the line. */
  lemma {:induction false} IntersectionOnBoth(p: Vec3, n: Vec3, a: Vec3, b: Vec3)
    requires Intersection(p, n, a, b).Some?
    ensures Dot3(n, Sub3(Intersection(p, n, a, b).value, p)) == 0.0
    ensures exists k: real :: Intersection(p, n, a, b).value == Add3(a, Scale3(k, Sub3(b, a)))
  {
    var k := Dot3(n, Sub3(p, a)) / Dot3(n, Sub3(b, a));
    OffsetFromPlane(p, n, a, b, k);
  }

  /** Any point of the line that lies in the plane is the intersection. */
  lemma {:induction false} IntersectionUnique(p: Vec3, n: Vec3, a: Vec3, b: Vec3, k: real)
    requires Dot3(n, Sub3(b, a)) != 0.0
    requires Dot3(n, Sub3(Add3(a, Scale3(k, Sub3(b, a))), p)) == 0.0
    ensures Intersection(p, n, a, b) == Some(Add3(a, Scale3(k, Sub3(b, a))))
  {
    OffsetFromPlane(p, n, a, b, k);
    assert k == Dot3(n, Sub3(p, a)) / Dot3(n, Sub3(b, a));
  }

  /** The left and right edges are vertical: a facet's plane misses them exactly when its normal is horizontal. */
  lemma EdgesVertical(p: Vec3, n: Vec3)
    ensures Intersection(p, n, BottomLeft, TopLeft).None? <==> n.z == 0.0
    ensures Intersection(p, n, BottomRight, TopRight).None? <==> n.z == 0.0
  {}

  /**
   * calculateVerticesFirstCut as far as the start point: the facet's plane goes through its
   * first vertex (an empty vertex array has none, and a zero normal defines no plane), and the
   * start point is chosen from its intersections with the outline's left and right edges.
   */
  function FirstCutStart(tr: T.Triangle): (r: Result<Vec3>)
    ensures |T.GetVertices(tr)| == 0 ==> r == Err(IndexOutOfBounds(0))
    ensures |T.GetVertices(tr)| > 0 && T.GetNormal(tr) == Zero3 ==> r == Err(ZeroNorm)
    ensures |T.GetVertices(tr)| > 0 && T.GetNormal(tr) != Zero3 && T.GetNormal(tr).z == 0.0 ==>
      r == Err(NullPointer(TC.NoMessage))
  {
    var vertices, n := T.GetVertices(tr), T.GetNormal(tr);
    if |vertices| == 0 then Err(IndexOutOfBounds(0))
    else if n == Zero3 then Err(ZeroNorm)
    else StartPoint(Intersection(vertices[0], n, BottomLeft, TopLeft), Intersection(vertices[0], n, BottomRight, TopRight))
  }

  /**
   * A facet with vertices and a normal that is not horizontal has a start point, and it lies in
   * the facet's plane on the left or the right edge's line.
   */
  lemma {:induction false} FirstCutStartInPlane(tr: T.Triangle)
    requires |T.GetVertices(tr)| > 0 && T.GetNormal(tr).z != 0.0
    ensures var r, p, n := FirstCutStart(tr), T.GetVertices(tr)[0], T.GetNormal(tr);
      r.Ok? && Dot3(n, Sub3(r.value, p)) == 0.0
      && (Some(r.value) == Intersection(p, n, BottomLeft, TopLeft) || Some(r.value) == Intersection(p, n, BottomRight, TopRight))
  {
    var p, n := T.GetVertices(tr)[0], T.GetNormal(tr);
    EdgesVertical(p, n);
    var left, right := Intersection(p, n, BottomLeft, TopLeft), Intersection(p, n, BottomRight, TopRight);
    StartPointChoice(left.value, right.value);
    IntersectionOnBoth(p, n, BottomLeft, TopLeft);
    IntersectionOnBoth(p, n, BottomRight, TopRight);
  }

  /** The index of the first facet whose first cut fails, or the number of facets when none does. */
  function FirstFailingFacet(tris: seq<T.Triangle>): (r: nat)
    ensures r <= |tris|
    ensures forall i :: 0 <= i < r ==> FirstCutStart(tris[i]).Ok?
    ensures r < |tris| ==> FirstCutStart(tris[r]).Err?
    decreases |tris|
  {
    if |tris| == 0 || FirstCutStart(tris[0]).Err? then 0
    else
      var rest := FirstFailingFacet(tris[1..]);
      assert forall i :: 1 <= i <= rest ==> tris[i] == tris[1..][i - 1];
      1 + rest
  }

  /** How many facets the loop sends a pose for: up to and including the first failing one. */
  function FacetsSent(tris: seq<T.Triangle>): (r: nat)
    ensures r <= |tris|
    ensures FirstFailingFacet(tris) < |tris| <==> r == FirstFailingFacet(tris) + 1
  {
    var f := FirstFailingFacet(tris);
    if f < |tris| then f + 1 else f
  }

  /**
   * Walking the facets in order: a passing facet before the first failing one moves the first
   * failure further on, and a failing one is the first failure, after which the loop has sent
   * the poses up to and including it.
   */
  lemma {:induction false} FirstFailingFacetStep(tris: seq<T.Triangle>, k: nat)
    requires k < |tris| && k <= FirstFailingFacet(tris)
    ensures FirstCutStart(tris[k]).Ok? ==> k < FirstFailingFacet(tris)
    ensures FirstCutStart(tris[k]).Err? ==> FirstFailingFacet(tris) == k && FacetsSent(tris) == k + 1
  {}

  // ---------- the object ----------

  class CuttingLogic {
    const robotMovement: RM.RobotMovement
    /** isCuttingActive: whether a cut is running. */
    var isCuttingActive: bool
    /** The facets of the model; no code of the repository ever sets them. */
    var triangles: Option<seq<T.Triangle>>

    constructor (robotMovement: RM.RobotMovement)
      ensures this.robotMovement == robotMovement && !isCuttingActive && triangles.None?
    {
      this.robotMovement := robotMovement;
      isCuttingActive := false;
      triangles := None;
    }

    /**
     * The Java constructor: a new object whose robot movement then gets the neutral and the
     * auxiliary position; the first exception is the result.
     */
    static method Create(robotMovement: RM.RobotMovement, currentPose: Mat44) returns (r: Result<CuttingLogic>)
      modifies robotMovement
      ensures var w := robotMovement.transformCoords.CutterRobotToWorkspace();
        var n := TC.TrajectoryPose(w, currentPose, NeutralPoint());
        var a := TC.TrajectoryPose(w, currentPose, AuxiliaryPoint());
        (r.Ok? <==> n.Ok? && a.Ok?)
        && (r.Err? ==> r.error == if n.Err? then n.error else a.error)
        && (r.Ok? ==> robotMovement.neutralPosition == Some(Col4(n.value, 3))
                      && robotMovement.auxiliaryPosition == Some(Col4(a.value, 3)))
      ensures r.Ok? ==> (fresh(r.value) && r.value.robotMovement == robotMovement
                         && !r.value.isCuttingActive && r.value.triangles.None?)
      ensures robotMovement.quantizationStep == old(robotMovement.quantizationStep)
    {
      var c := new CuttingLogic(robotMovement);
      var o := c.SetNeutralPosition(currentPose);
      if o.Fail? {
        return Err(o.error);
      }
      o := c.SetAuxiliaryPosition(currentPose);
      if o.Fail? {
        return Err(o.error);
      }
      r := Ok(c);
    }

    /** setNeutralPosition: the neutral point handed to the robot movement. */
    method SetNeutralPosition(currentPose: Mat44) returns (o: Outcome)
      modifies robotMovement
      ensures var want := TC.TrajectoryPose(robotMovement.transformCoords.CutterRobotToWorkspace(), currentPose, NeutralPoint());
        (o.Pass? <==> want.Ok?) && (o.Fail? ==> o.error == want.error)
        && robotMovement.neutralPosition == (if want.Ok? then Some(Col4(want.value, 3)) else old(robotMovement.neutralPosition))
      ensures robotMovement.auxiliaryPosition == old(robotMovement.auxiliaryPosition)
      ensures robotMovement.quantizationStep == old(robotMovement.quantizationStep)
    {
      o := robotMovement.SetNeutralPosition(NeutralPoint(), currentPose);
    }

    /** setAuxiliaryPosition: the auxiliary point handed to the robot movement. */
    method SetAuxiliaryPosition(currentPose: Mat44) returns (o: Outcome)
      modifies robotMovement
      ensures var want := TC.TrajectoryPose(robotMovement.transformCoords.CutterRobotToWorkspace(), currentPose, AuxiliaryPoint());
        (o.Pass? <==> want.Ok?) && (o.Fail? ==> o.error == want.error)
        && robotMovement.auxiliaryPosition == (if want.Ok? then Some(Col4(want.value, 3)) else old(robotMovement.auxiliaryPosition))
      ensures robotMovement.neutralPosition == old(robotMovement.neutralPosition)
      ensures robotMovement.quantizationStep == old(robotMovement.quantizationStep)
    {
      o := robotMovement.SetAuxiliaryPosition(AuxiliaryPoint(), currentPose);
    }

    /**
     * moveHolderRobotToDefaultPose: sends the holder robot's default pose and fails exactly when
     * the robot does not accept it.
     */
    method MoveHolderRobotToDefaultPose(response: string, show: real -> string) returns (o: Outcome)
      modifies robotMovement.log
      ensures (o.Pass? <==> Trim(response) == RM.Accepted) && (o.Fail? ==> o.error == Failure(DefaultPoseRefused))
      ensures robotMovement.log.commands ==
        old(robotMovement.log.commands) + [RM.MoveCommand(robotMovement.transformCoords.defaultPoseHoldersEndeffector, show)]
      ensures robotMovement.log.clients == old(robotMovement.log.clients) + [robotMovement.transformCoords.clientR2]
    {
      var accepted := robotMovement.MoveMinChange(robotMovement.transformCoords.defaultPoseHoldersEndeffector,
                                                  robotMovement.transformCoords.clientR2, response, show);
      if !accepted {
        return Fail(Failure(DefaultPoseRefused));
      }
      o := Pass;
    }

    /**
     * One pass of cut's loop over the facets: the facet's angle, the turn, the turned default
     * pose and the move of the holder robot, whose client is `client`; then the start point of
     * the facet's first cut, whose failure ends the pass with its exception.
     */
    method TurnForTriangle(tr: T.Triangle, defaultPose: Mat44, client: TC.TcpClient, response: string, show: real -> string,
                           angle: VectorAngle, cos: real -> real, sin: real -> real) returns (o: Outcome)
      modifies robotMovement.log
      ensures (o.Pass? <==> FirstCutStart(tr).Ok?) && (o.Fail? ==> o.error == FirstCutStart(tr).error)
      ensures robotMovement.log.commands == old(robotMovement.log.commands)
        + [RM.MoveCommand(HolderPose(tr, defaultPose, angle, cos, sin), show)]
      ensures robotMovement.log.clients == old(robotMovement.log.clients) + [client]
    {
      var rotationAngle := RotationAngle(T.GetNormal(tr), angle);
      var rotationMatrix := CalcRotationMatrix(cos(rotationAngle), sin(rotationAngle));
      var poseMatrixHolderRobot := CalcPoseHolderRobot(defaultPose, rotationMatrix);
      var accepted := robotMovement.MoveMinChange(poseMatrixHolderRobot, client, response, show);
      var startPoint := FirstCutStart(tr);
      if startPoint.Err? {
        return Fail(startPoint.error);
      }
      o := Pass;
    }

    /**
     * The loop of cut over the facets: for each one in order, the holder robot's default pose
     * turned by the facet's angle is sent to the holder robot (`triangleReply(i)` answers the
     * i-th) and the start point of its first cut is worked out.  The first facet without a start
     * point ends the loop with its exception, after its pose was sent.
     */
    method TurnForTriangles(tris: seq<T.Triangle>, triangleReply: nat -> string, show: real -> string,
                            angle: VectorAngle, cos: real -> real, sin: real -> real) returns (o: Outcome)
      modifies robotMovement.log
      ensures var f := FirstFailingFacet(tris);
        (o.Pass? <==> f == |tris|) && (o.Fail? ==> o.error == FirstCutStart(tris[f]).error)
      ensures robotMovement.log.commands == old(robotMovement.log.commands)
        + PoseCommands(HolderPoses(tris[..FacetsSent(tris)], robotMovement.transformCoords.defaultPoseHoldersEndeffector,
                                   angle, cos, sin), show)
      ensures robotMovement.log.clients == old(robotMovement.log.clients)
        + RM.Repeat(robotMovement.transformCoords.clientR2, FacetsSent(tris))
    {
      var log := robotMovement.log;
      var clientR2 := robotMovement.transformCoords.clientR2;
      var defaultPose := robotMovement.transformCoords.defaultPoseHoldersEndeffector;
      ghost var commands, clients := log.commands, log.clients;
      var cnt := 0;
      while cnt < |tris|
        invariant 0 <= cnt <= |tris|
        invariant cnt <= FirstFailingFacet(tris)
        invariant log.commands == commands + PoseCommands(HolderPoses(tris[..cnt], defaultPose, angle, cos, sin), show)
        invariant log.clients == clients + RM.Repeat(clientR2, cnt)
      {
        o := TurnForTriangle(tris[cnt], defaultPose, clientR2, triangleReply(cnt), show, angle, cos, sin);
        TriangleCommandsStep(commands, tris, cnt, defaultPose, angle, cos, sin, show);
        RM.RepeatStep(clients, clientR2, cnt);
        FirstFailingFacetStep(tris, cnt);
        if o.Fail? {
          return;
        }
        cnt := cnt + 1;
      }
      assert tris[..FacetsSent(tris)] == tris;
      o := Pass;
    }

    /**
     * cut: raises the flag, moves the holder robot to its default pose and the cutter robot to
     * the neutral position, then turns the holder robot for each facet in turn, and lowers the
     * flag.  A failure on the way leaves the flag raised.  `response` answers the default pose,
     * `neutralReply(j)` the j-th point to the neutral position, `triangleReply(i)` the i-th
     * facet's pose; `angle`, `cos` and `sin` are Vector2D.angle, Math.cos and Math.sin.
     */
    method Cut(currentPose: Mat44, norm: Vec3 -> real, response: string, neutralReply: nat -> string,
               triangleReply: nat -> string, show: real -> string, angle: VectorAngle,
               cos: real -> real, sin: real -> real) returns (o: Outcome)
      requires robotMovement.Valid()
      modifies this, robotMovement.log
      ensures o.Pass? <==> Trim(response) == RM.Accepted && robotMovement.neutralPosition.Some? && triangles.Some?
                           && FirstFailingFacet(triangles.value) == |triangles.value|
      ensures isCuttingActive <==> o.Fail?
      ensures triangles == old(triangles)
      ensures Trim(response) != RM.Accepted ==> o == Fail(Failure(DefaultPoseRefused))
      ensures Trim(response) == RM.Accepted && robotMovement.neutralPosition.None? ==> o == Fail(NullPointer(TC.NoMessage))
      ensures Trim(response) == RM.Accepted && robotMovement.neutralPosition.Some? && triangles.Some?
              && FirstFailingFacet(triangles.value) < |triangles.value| ==>
        o == Fail(FirstCutStart(triangles.value[FirstFailingFacet(triangles.value)]).error)
      ensures var log, tc := robotMovement.log, robotMovement.transformCoords;
        Trim(response) != RM.Accepted || robotMovement.neutralPosition.None? ==>
          log.commands == old(log.commands) + [RM.MoveCommand(tc.defaultPoseHoldersEndeffector, show)]
          && log.clients == old(log.clients) + [tc.clientR2]
      ensures var log, tc := robotMovement.log, robotMovement.transformCoords;
        Trim(response) == RM.Accepted && robotMovement.neutralPosition.Some? ==>
          var way := RM.P2PTrajectory(Col4(currentPose, 3), robotMovement.neutralPosition.value,
                                      robotMovement.quantizationStep, norm);
          log.commands == old(log.commands) + [RM.MoveCommand(tc.defaultPoseHoldersEndeffector, show)]
            + RM.HandlerCommands(way, TC.StandardCutterToolOrientation, show)
            + (if triangles.None? then [] else
                 PoseCommands(HolderPoses(triangles.value[..FacetsSent(triangles.value)],
                                          tc.defaultPoseHoldersEndeffector, angle, cos, sin), show))
          && log.clients == old(log.clients) + [tc.clientR2] + RM.Repeat(tc.clientR1, |way|)
            + (if triangles.None? then [] else RM.Repeat(tc.clientR2, FacetsSent(triangles.value)))
    {
      isCuttingActive := true;
      o := MoveHolderRobotToDefaultPose(response, show);
      if o.Fail? {
        return;
      }
      o := robotMovement.MoveToNeutralPosition(currentPose, norm, neutralReply, show);
      if o.Fail? {
        return;
      }
      if triangles.None? {
        return Fail(NullPointer(TC.NoMessage));
      }
      o := TurnForTriangles(triangles.value, triangleReply, show, angle, cos, sin);
      if o.Fail? {
        return;
      }
      isCuttingActive := false;
    }
  }
}
