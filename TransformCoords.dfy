/**
 * TransformCoords: the chain of homogeneous transforms between the tracking system, the cutter
 * robot (R1), the holder robot (R2), the holder's end effector and the workspace, and the pose
 * the cutter robot must take so that its tool reaches a point of the workspace.
 */
module TransformCoords {
  import opened Wrappers
  import opened Linear
  import opened Homogeneous
  import opened JavaStrings
  import opened Constants

  /** A connection to one robot's server; only its identity matters here. */
  datatype TcpClient = TcpClient(id: nat)

  /** Orientation of the cutting tool relative to the cutter robot. */
  const StandardCutterToolOrientation := Mat33(0.0, 0.0, 1.0, 0.0, 1.0, 0.0, -1.0, 0.0, 0.0)

  /** The cutter relative to the cutter robot's end effector: no rotation, offset (50, -10, 20). */
  const EndeffectorToCutter := HomMatrix(Identity3, Vec3(50.0, -10.0, 20.0))

  /** Rotational parts of the default poses of the holder's end effector and of the workspace. */
  const RotPartOfHolderRobotsEndeffectorDefaultPose := Identity3
  const RotPartOfWorkspaceDefaultPose := Identity3

  const ClientsMissing := "[TransformCoords] At least one TCP-Client is not initialized."
  const WorkspaceMissing := "[TransformCoords] Workspace position is not defined."
  const CalibrationMissing := "[TransformCoords] Calculation of transformation matrix from robot1 to robot2 failed,"
    + " cause at least one matrix was null.\nDid the calibration succeeded?"
  /** A NullPointerException raised by the JVM itself carries no message of the program's. */
  const NoMessage := ""

  /**
   * The static fields the calibration fills in before a TransformCoords is created; None is a
   * null reference.
   */
  datatype Calibration = Calibration(
    cutterRobotToTrackingSystem: Option<Mat44>,
    holderRobotToTrackingSystem: Option<Mat44>,
    initialWorkspacePosition: Option<Vec3>)

  // ---------- createInversTransformationMatrix ----------

  /** The inverse of a transform's rigid form, or the exception inverting its block raises. */
  function InverseOf(h: Mat44): Result<Mat44> {
    if Det3(Block(h)) == 0.0 then Err(SingularMatrix) else Ok(InvertRigid(h))
  }

  /**
   * Block R⁻¹, translation -R⁻¹·t, bottom row [0, 0, 0, 1]; for a homogeneous argument this is
   * its inverse from both sides.  A singular block raises.
   */
  method CreateInversTransformationMatrix(h: Mat44) returns (r: Result<Mat44>)
    ensures r == InverseOf(h)
    ensures r.Err? <==> Det3(Block(h)) == 0.0
    ensures r.Ok? ==> (IsHomogeneous(r.value) && Block(r.value) == Inverse3(Block(h))
      && Translation(r.value) == Neg3(Apply33(Inverse3(Block(h)), Translation(h))))
    ensures r.Ok? && IsHomogeneous(h) ==> Mul44(r.value, h) == Identity44 && Mul44(h, r.value) == Identity44
  {
    var rot := Block(h);
    if Det3(rot) == 0.0 {
      return Err(SingularMatrix);
    }
    var invertedRotationalPart := Inverse3(rot);
    var invertedTranslationalPart := Scale3(-1.0, Apply33(invertedRotationalPart, Translation(h)));
    var m := SetBlock(Zero44, invertedRotationalPart);
    m := m.(m03 := invertedTranslationalPart.x);
    m := m.(m13 := invertedTranslationalPart.y);
    m := m.(m23 := invertedTranslationalPart.z);
    m := m.(m30 := 0.0, m31 := 0.0, m32 := 0.0, m33 := 1.0);
    assert m == InvertRigid(h);
    HomParts(invertedRotationalPart, Neg3(Apply33(invertedRotationalPart, Translation(h))), m);
    if IsHomogeneous(h) {
      InvertRigidCorrect(h);
    }
    r := Ok(m);
  }

  // ---------- the constructor's chain ----------

  /** calcCutterRobotToHolderRobot: C · H⁻¹. */
  function CutterRobotToHolderRobotOf(cal: Calibration): Result<Mat44> {
    if cal.cutterRobotToTrackingSystem.None? then Err(NullPointer(CalibrationMissing))
    else if cal.holderRobotToTrackingSystem.None? then Err(NullPointer(NoMessage))
    else
      match InverseOf(cal.holderRobotToTrackingSystem.value)
      case Err(e) => Err(e)
      case Ok(holderInverse) => Ok(Mul44(cal.cutterRobotToTrackingSystem.value, holderInverse))
  }

  /**
   * calcDefaultPoseHoldersEndeffector / calcDefaultPoseWorkspace: the pose [rot | p], given
   * relative to the cutter robot, expressed relative to the holder robot.
   */
  function RelativeToHolderRobot(cutterRobotToHolderRobot: Mat44, rot: Mat33, p: Vec3): Result<Mat44> {
    match InverseOf(cutterRobotToHolderRobot)
    case Err(e) => Err(e)
    case Ok(inverse) => Ok(Mul44(inverse, HomMatrix(rot, p)))
  }

  /** calcEndeffectorToWorkspace: the end effector's default pose inverted, times the workspace's. */
  function EndeffectorToWorkspaceOf(defaultPoseHoldersEndeffector: Mat44, defaultPoseWorkspace: Mat44): Result<Mat44> {
    match InverseOf(defaultPoseHoldersEndeffector)
    case Err(e) => Err(e)
    case Ok(inverse) => Ok(Mul44(inverse, defaultPoseWorkspace))
  }

  /** The four transforms the constructor computes. */
  datatype Frames = Frames(
    cutterRobotToHolderRobot: Mat44,
    defaultPoseHoldersEndeffector: Mat44,
    defaultPoseWorkspace: Mat44,
    endeffectorToWorkspace: Mat44)

  /** What the constructor computes, or the first exception it raises. */
  function Construct(clientR1: Option<TcpClient>, clientR2: Option<TcpClient>, cal: Calibration): Result<Frames> {
    if clientR1.None? || clientR2.None? then Err(NullPointer(ClientsMissing))
    else if cal.initialWorkspacePosition.None? then Err(NullPointer(WorkspaceMissing))
    else
      var p := cal.initialWorkspacePosition.value;
      match CutterRobotToHolderRobotOf(cal)
      case Err(e) => Err(e)
      case Ok(c2h) =>
        match RelativeToHolderRobot(c2h, RotPartOfHolderRobotsEndeffectorDefaultPose, p)
        case Err(e) => Err(e)
        case Ok(dhe) =>
          match RelativeToHolderRobot(c2h, RotPartOfWorkspaceDefaultPose, p)
          case Err(e) => Err(e)
          case Ok(dw) =>
            match EndeffectorToWorkspaceOf(dhe, dw)
            case Err(e) => Err(e)
            case Ok(e2w) => Ok(Frames(c2h, dhe, dw, e2w))
  }

  /**
   * Both default poses are built from the same position with identity rotations, so they
   * coincide, and the transform between the end effector and the workspace is the identity.
   */
  lemma {:induction false} ConstructedFrames(clientR1: Option<TcpClient>, clientR2: Option<TcpClient>, cal: Calibration)
    requires Construct(clientR1, clientR2, cal).Ok?
    ensures var f := Construct(clientR1, clientR2, cal).value;
      f.defaultPoseHoldersEndeffector == f.defaultPoseWorkspace
      && IsHomogeneous(f.defaultPoseHoldersEndeffector)
      && f.endeffectorToWorkspace == Identity44
  {
    var f := Construct(clientR1, clientR2, cal).value;
    var p := cal.initialWorkspacePosition.value;
    var c2h := f.cutterRobotToHolderRobot;
    var ci := InvertRigid(c2h);
    HomParts(Block(ci), Translation(ci), ci);
    HomMul(Block(ci), Translation(ci), Identity3, p);
    HomParts(Mul33(Block(ci), Identity3), Add3(Apply33(Block(ci), p), Translation(ci)), f.defaultPoseHoldersEndeffector);
    InvertRigidCorrect(f.defaultPoseHoldersEndeffector);
  }

  /**
   * For a calibration that is a rigid transform, the workspace seen from the cutter robot is
   * the identity rotation placed at the initial workspace position.
   */
  lemma {:induction false} WorkspaceFromCutterRobot(clientR1: Option<TcpClient>, clientR2: Option<TcpClient>, cal: Calibration)
    requires Construct(clientR1, clientR2, cal).Ok?
    requires IsHomogeneous(cal.cutterRobotToTrackingSystem.value)
    ensures var f := Construct(clientR1, clientR2, cal).value;
      Mul44(f.cutterRobotToHolderRobot, f.defaultPoseWorkspace)
        == HomMatrix(Identity3, cal.initialWorkspacePosition.value)
  {
    var f := Construct(clientR1, clientR2, cal).value;
    var h := cal.holderRobotToTrackingSystem.value;
    HomParts(Inverse3(Block(h)), Neg3(Apply33(Inverse3(Block(h)), Translation(h))), h);
    MulHomogeneous(cal.cutterRobotToTrackingSystem.value, InvertRigid(h));
    CancelInverse(f.cutterRobotToHolderRobot, cal.initialWorkspacePosition.value);
  }

  /** So a point at workspace coordinates x lies, seen from the cutter robot, at x + initialWorkspacePosition. */
  lemma {:induction false} WorkspacePointFromCutterRobot(clientR1: Option<TcpClient>, clientR2: Option<TcpClient>,
                                                         cal: Calibration, x: Vec3)
    requires Construct(clientR1, clientR2, cal).Ok?
    requires IsHomogeneous(cal.cutterRobotToTrackingSystem.value)
    ensures var f := Construct(clientR1, clientR2, cal).value;
      Apply44(Mul44(f.cutterRobotToHolderRobot, f.defaultPoseWorkspace), Point(x))
        == Point(Add3(x, cal.initialWorkspacePosition.value))
  {
    WorkspaceFromCutterRobot(clientR1, clientR2, cal);
    HomApply(Identity3, cal.initialWorkspacePosition.value, x);
    ApplyIdentity(x);
  }

  // ---------- getTrajectoryMatrixForCuttersEndeffector ----------

  /** ArrayRealVector.add: both vectors must have the same dimension. */
  function AddVectors(a: seq<real>, b: seq<real>): (r: Result<seq<real>>)
    ensures r.Ok? ==> |r.value| == |a|
  {
    if |a| != |b| then Err(DimensionMismatch(|a|, |b|))
    else Ok(seq(|a|, i requires 0 <= i < |a| => a[i] + b[i]))
  }

  /** The vector of a three-entry sequence (the dimension check makes it the only case). */
  function VectorOf(s: seq<real>): Vec3 {
    if |s| == 3 then Vec3(s[0], s[1], s[2]) else Zero3
  }

  function Entries3(v: Vec3): seq<real> { [v.x, v.y, v.z] }

  function Entries4(v: Vec4): seq<real> { [v.x, v.y, v.z, v.w] }

  /** The pose with block `rot`, last column `col` and zeros elsewhere in the bottom row. */
  function PoseWithColumn(rot: Mat33, col: Vec4): Mat44 {
    SetColumn3(SetBlock(Zero44, rot), col)
  }

  /**
   * getTrajectoryMatrixForCuttersEndeffector as written: the tool offset, a 3-vector, is added
   * to the end-effector-relative position, a homogeneous 4-vector.
   */
  function TrajectoryAsWritten(cutterRobotToWorkspace: Mat44, currentPose: Mat44, homPosVec: Vec4): Result<Mat44> {
    var posRelCutRobot := Apply44(cutterRobotToWorkspace, homPosVec);
    match InverseOf(currentPose)
    case Err(e) => Err(e)
    case Ok(inverse) =>
      var posRelCutRobotEndeffector := Apply44(inverse, posRelCutRobot);
      match AddVectors(Entries3(Scale3(-1.0, Translation(EndeffectorToCutter))), Entries4(posRelCutRobotEndeffector))
      case Err(e) => Err(e)
      case Ok(s) =>
        var position := VectorOf(s);
        Ok(PoseWithColumn(StandardCutterToolOrientation, Apply44(currentPose, Point(position))))
  }

  /** The dimension check always fails: no pose is ever produced. */
  lemma AsWrittenNeverSucceeds(cutterRobotToWorkspace: Mat44, currentPose: Mat44, homPosVec: Vec4)
    ensures TrajectoryAsWritten(cutterRobotToWorkspace, currentPose, homPosVec).Err?
    ensures Det3(Block(currentPose)) != 0.0 ==>
      TrajectoryAsWritten(cutterRobotToWorkspace, currentPose, homPosVec) == Err(DimensionMismatch(3, 4))
  {}

  /**
   * The intended trajectory pose: the tool offset subtracted from the position relative to the
   * end effector, brought back to the cutter robot's frame with the current pose, and combined
   * with the standard tool orientation.
   */
  function TrajectoryPose(cutterRobotToWorkspace: Mat44, currentPose: Mat44, homPosVec: Vec4): Result<Mat44> {
    var posRelCutRobot := Apply44(cutterRobotToWorkspace, homPosVec);
    match InverseOf(currentPose)
    case Err(e) => Err(e)
    case Ok(inverse) =>
      var posRelCutRobotEndeffector := Apply44(inverse, posRelCutRobot);
      var position := Add3(Scale3(-1.0, Translation(EndeffectorToCutter)), Xyz(posRelCutRobotEndeffector));
      Ok(PoseWithColumn(StandardCutterToolOrientation, Apply44(currentPose, Point(position))))
  }

  /**
   * For rigid transforms and a target point q (last entry 1), the pose has the standard tool
   * orientation and places the end effector at q minus the tool offset turned by the current
   * orientation.
   */
  lemma {:induction false} TrajectoryReachesTarget(cutterRobotToWorkspace: Mat44, currentPose: Mat44, homPosVec: Vec4)
    requires IsHomogeneous(cutterRobotToWorkspace) && IsHomogeneous(currentPose) && homPosVec.w == 1.0
    requires Det3(Block(currentPose)) != 0.0
    ensures var q := Xyz(Apply44(cutterRobotToWorkspace, homPosVec));
      TrajectoryPose(cutterRobotToWorkspace, currentPose, homPosVec)
        == Ok(HomMatrix(StandardCutterToolOrientation,
                        Sub3(q, Apply33(Block(currentPose), Translation(EndeffectorToCutter)))))
  {
    var offset := Translation(EndeffectorToCutter);
    var posRel := Apply44(cutterRobotToWorkspace, homPosVec);
    ApplyPoint(cutterRobotToWorkspace, homPosVec);
    var q := Xyz(posRel);
    assert posRel == Point(q);
    var inverse := InvertRigid(currentPose);
    HomParts(Inverse3(Block(currentPose)), Neg3(Apply33(Inverse3(Block(currentPose)), Translation(currentPose))), inverse);
    ApplyPoint(inverse, posRel);
    var y := Xyz(Apply44(inverse, posRel));
    assert Apply44(inverse, posRel) == Point(y);
    ApplyAfterUndo(currentPose, q);
    var position := Add3(Scale3(-1.0, offset), y);
    assert position == Sub3(y, offset);
    ToolOffsetStep(currentPose, y, offset);
  }

  /** Moving the point back by the offset moves its image back by the turned offset. */
  lemma ToolOffsetStep(h: Mat44, y: Vec3, offset: Vec3)
    requires IsHomogeneous(h)
    ensures Apply44(h, Point(Sub3(y, offset)))
      == Point(Sub3(Xyz(Apply44(h, Point(y))), Apply33(Block(h), offset)))
  {
    ApplyPoint(h, Point(y));
    ApplyPoint(h, Point(Sub3(y, offset)));
    ApplyLinear(Block(h), y, offset);
  }

  /**
   * When the robot already holds the standard orientation, the tool tip of the returned pose
   * is exactly at the target point.
   */
  lemma {:induction false} ToolTipAtTarget(cutterRobotToWorkspace: Mat44, currentPose: Mat44, homPosVec: Vec4)
    requires IsHomogeneous(cutterRobotToWorkspace) && IsHomogeneous(currentPose) && homPosVec.w == 1.0
    requires Det3(Block(currentPose)) != 0.0 && Block(currentPose) == StandardCutterToolOrientation
    ensures TrajectoryPose(cutterRobotToWorkspace, currentPose, homPosVec).Ok?
    ensures Apply44(TrajectoryPose(cutterRobotToWorkspace, currentPose, homPosVec).value, Point(Translation(EndeffectorToCutter)))
      == Apply44(cutterRobotToWorkspace, homPosVec)
  {
    TrajectoryReachesTarget(cutterRobotToWorkspace, currentPose, homPosVec);
    var offset := Translation(EndeffectorToCutter);
    ApplyPoint(cutterRobotToWorkspace, homPosVec);
    var q := Xyz(Apply44(cutterRobotToWorkspace, homPosVec));
    assert Apply44(cutterRobotToWorkspace, homPosVec) == Point(q);
    TipAt(Block(currentPose), q, offset);
  }

  /** A pose placed at p minus its turned offset carries the offset point to p. */
  lemma TipAt(r: Mat33, p: Vec3, offset: Vec3)
    ensures Apply44(HomMatrix(r, Sub3(p, Apply33(r, offset))), Point(offset)) == Point(p)
  {
    HomApply(r, Sub3(p, Apply33(r, offset)), offset);
  }

  // ---------- getHomRealMatrix ----------

  /** A pose from its twelve entries row by row, with bottom row [0, 0, 0, 1]. */
  function FromRowMajor(v: seq<real>): Mat44
    requires |v| == PoseEntries
  {
    Mat44(v[0], v[1], v[2], v[3], v[4], v[5], v[6], v[7], v[8], v[9], v[10], v[11], 0.0, 0.0, 0.0, 1.0)
  }

  /** The entries 0-2 of each of three rows, with bottom row [0, 0, 0, 1]. */
  function RowsToMatrix(rows: array2<real>): Mat44
    reads rows
    requires rows.Length0 == 3 && rows.Length1 == 4
  {
    Mat44(rows[0, 0], rows[0, 1], rows[0, 2], rows[0, 3],
          rows[1, 0], rows[1, 1], rows[1, 2], rows[1, 3],
          rows[2, 0], rows[2, 1], rows[2, 2], rows[2, 3],
          0.0, 0.0, 0.0, 1.0)
  }

  /** The pose a reply describes: the same reading as convertPoseDataToDoubleArray from index 0. */
  function PoseFromReply(reply: string, parse: Parser): Result<Mat44> {
    match PoseData(reply, 0, parse)
    case Err(e) => Err(e)
    case Ok(v) => Ok(FromRowMajor(v))
  }

  /** A reply of twelve tokens that parse to the first three rows of a homogeneous pose gives that pose. */
  lemma {:induction false} PoseFromJoinedReply(words: seq<string>, h: Mat44, parse: Parser)
    requires IsHomogeneous(h) && |words| == PoseEntries
    requires forall i :: 0 <= i < PoseEntries ==> IsWord(words[i])
    requires forall i :: 0 <= i < PoseEntries ==> parse(words[i]) == Some(RowMajor(h)[i])
    ensures PoseFromReply(Join(words), parse) == Ok(h)
  {
    ReadJoined(words, RowMajor(h), parse);
  }

  /** The first three rows of a pose, row by row. */
  function RowMajor(h: Mat44): (r: seq<real>)
    ensures |r| == PoseEntries
  {
    [h.m00, h.m01, h.m02, h.m03, h.m10, h.m11, h.m12, h.m13, h.m20, h.m21, h.m22, h.m23]
  }

  lemma FromItsRows(h: Mat44)
    requires IsHomogeneous(h)
    ensures FromRowMajor(RowMajor(h)) == h
  {}

  /**
   * Reads the first twelve tokens of the reply into three rows; a token that does not parse
   * ends the reading and leaves the remaining entries zero; too few tokens raise.
   */
  method GetHomRealMatrix(positionHomRowWise: string, parse: Parser) returns (r: Result<Mat44>)
    ensures r == PoseFromReply(positionHomRowWise, parse)
  {
    var tokens := Split(positionHomRowWise);
    var rows := new real[3, 4]((i, j) => 0.0);
    ghost var read: seq<real> := [];
    assert RowsToMatrix(rows) == FromRowMajor(Padded(read));
    var row := 0;
    while row < 3
      invariant 0 <= row <= 3 && |read| == 4 * row <= |tokens|
      invariant RowsToMatrix(rows) == FromRowMajor(Padded(read))
      invariant forall j :: 0 <= j < |read| ==> ParseAt(tokens, j, parse) == Some(read[j])
    {
      var end;
      end, read := FillRow(rows, row, tokens, parse, read);
      if end.MissingToken? {
        ReplyFails(positionHomRowWise, tokens, parse, read);
        return Err(IndexOutOfBounds(end.index));
      }
      if end.NotANumber? {
        ReplyRead(positionHomRowWise, tokens, parse, read);
        return Ok(RowsToMatrix(rows));
      }
      row := row + 1;
    }
    ReplyRead(positionHomRowWise, tokens, parse, read);
    r := Ok(RowsToMatrix(rows));
  }

  /** How reading one row of the reply ended. */
  datatype RowEnd = Filled | NotANumber | MissingToken(index: int)

  /**
   * The inner loop of getHomRealMatrix: fills row `row` from the tokens that follow the
   * values already read, stopping at a token that does not parse or at the first missing one.
   */
  method FillRow(rows: array2<real>, row: nat, tokens: seq<string>, parse: Parser, ghost before: seq<real>)
      returns (end: RowEnd, ghost read: seq<real>)
    requires rows.Length0 == 3 && rows.Length1 == 4 && row < 3 && |before| == 4 * row <= |tokens|
    requires RowsToMatrix(rows) == FromRowMajor(Padded(before))
    requires forall j :: 0 <= j < |before| ==> ParseAt(tokens, j, parse) == Some(before[j])
    modifies rows
    ensures 4 * row <= |read| <= 4 * row + 4 && |read| <= |tokens| && (!end.Filled? ==> |read| < 4 * row + 4)
    ensures RowsToMatrix(rows) == FromRowMajor(Padded(read))
    ensures forall j :: 0 <= j < |read| ==> ParseAt(tokens, j, parse) == Some(read[j])
    ensures end.Filled? ==> |read| == 4 * row + 4 <= |tokens|
    ensures end.NotANumber? ==> |read| < |tokens| && ParseAt(tokens, |read|, parse).None?
    ensures end.MissingToken? ==> end.index == |read| == |tokens|
  {
    read := before;
    var col := 0;
    while col < 4
      invariant 0 <= col <= 4 && |read| == 4 * row + col <= |tokens|
      invariant RowsToMatrix(rows) == FromRowMajor(Padded(read))
      invariant forall j :: 0 <= j < |read| ==> ParseAt(tokens, j, parse) == Some(read[j])
    {
      if row * 4 + col >= |tokens| {
        return MissingToken(row * 4 + col), read;
      }
      var parsed := ParseAt(tokens, row * 4 + col, parse);
      if parsed.None? {
        return NotANumber, read;
      }
      StoredStep(read, row, col, parsed.value);
      StoreCell(rows, row, col, parsed.value);
      read := read + [parsed.value];
      col := col + 1;
    }
    end := Filled;
  }

  /** Reading stopped after `read`, at the last entry or at a token that is not a number. */
  lemma ReplyRead(reply: string, tokens: seq<string>, parse: Parser, read: seq<real>)
    requires tokens == Split(reply) && |read| <= PoseEntries && |read| <= |tokens|
    requires forall j :: 0 <= j < |read| ==> ParseAt(tokens, j, parse) == Some(read[j])
    requires |read| == PoseEntries || (|read| < |tokens| && ParseAt(tokens, |read|, parse).None?)
    ensures PoseFromReply(reply, parse) == Ok(FromRowMajor(Padded(read)))
  {
    ReadStops(reply, tokens, 0, read, parse);
  }

  /** Every token there is parsed, and the next entry asks for one more. */
  lemma ReplyFails(reply: string, tokens: seq<string>, parse: Parser, read: seq<real>)
    requires tokens == Split(reply) && |read| < PoseEntries && |read| == |tokens|
    requires forall j :: 0 <= j < |read| ==> ParseAt(tokens, j, parse) == Some(read[j])
    ensures PoseFromReply(reply, parse) == Err(IndexOutOfBounds(|read|))
  {
    ReadMissing(reply, tokens, 0, read, parse);
  }

  method StoreCell(rows: array2<real>, row: nat, col: nat, value: real)
    requires rows.Length0 == 3 && rows.Length1 == 4 && row < 3 && col < 4
    modifies rows
    ensures RowsToMatrix(rows) == SetEntry(old(RowsToMatrix(rows)), row, col, value)
  {
    rows[row, col] := value;
  }

  /** The pose with entry (row, col) of its first three rows replaced. */
  function SetEntry(h: Mat44, row: nat, col: nat, v: real): Mat44
    requires row < 3 && col < 4
  {
    if row == 0 then
      if col == 0 then h.(m00 := v) else if col == 1 then h.(m01 := v)
      else if col == 2 then h.(m02 := v) else h.(m03 := v)
    else if row == 1 then
      if col == 0 then h.(m10 := v) else if col == 1 then h.(m11 := v)
      else if col == 2 then h.(m12 := v) else h.(m13 := v)
    else
      if col == 0 then h.(m20 := v) else if col == 1 then h.(m21 := v)
      else if col == 2 then h.(m22 := v) else h.(m23 := v)
  }

  lemma FromRowMajorUpdate(vals: seq<real>, row: nat, col: nat, v: real)
    requires |vals| == PoseEntries && row < 3 && col < 4
    ensures FromRowMajor(vals[4 * row + col := v]) == SetEntry(FromRowMajor(vals), row, col, v)
  {
  }

  /** Storing the next value read keeps the array equal to the values read, padded with zeros. */
  lemma StoredStep(read: seq<real>, row: nat, col: nat, v: real)
    requires row < 3 && col < 4 && |read| == 4 * row + col
    ensures FromRowMajor(Padded(read + [v])) == SetEntry(FromRowMajor(Padded(read)), row, col, v)
  {
    PaddedStep(read, v);
    FromRowMajorUpdate(Padded(read), row, col, v);
  }

  // ---------- the object ----------

  class TransformCoords {
    const clientR1: TcpClient
    const clientR2: TcpClient
    var cutterRobotToHolderRobot: Mat44
    var defaultPoseHoldersEndeffector: Mat44
    var defaultPoseWorkspace: Mat44
    var endeffectorToWorkspace: Mat44

    function CurrentFrames(): Frames
      reads this
    {
      Frames(cutterRobotToHolderRobot, defaultPoseHoldersEndeffector, defaultPoseWorkspace, endeffectorToWorkspace)
    }

    /** The object before the calc steps; the transforms are not yet computed. */
    constructor Init(clientR1: TcpClient, clientR2: TcpClient)
      ensures this.clientR1 == clientR1 && this.clientR2 == clientR2
    {
      this.clientR1 := clientR1;
      this.clientR2 := clientR2;
      cutterRobotToHolderRobot := Zero44;
      defaultPoseHoldersEndeffector := Zero44;
      defaultPoseWorkspace := Zero44;
      endeffectorToWorkspace := Zero44;
    }

    /**
     * The constructor: the clients and the workspace position must be set, then the four
     * transforms are computed in turn; the first exception is the result.
     */
    static method Create(clientR1: Option<TcpClient>, clientR2: Option<TcpClient>, cal: Calibration)
      returns (r: Result<TransformCoords>)
      ensures r.Ok? <==> Construct(clientR1, clientR2, cal).Ok?
      ensures r.Err? ==> r.error == Construct(clientR1, clientR2, cal).error
      ensures r.Ok? ==> (fresh(r.value) && r.value.CurrentFrames() == Construct(clientR1, clientR2, cal).value
        && r.value.clientR1 == clientR1.value && r.value.clientR2 == clientR2.value)
    {
      if clientR1.None? || clientR2.None? {
        return Err(NullPointer(ClientsMissing));
      }
      if cal.initialWorkspacePosition.None? {
        return Err(NullPointer(WorkspaceMissing));
      }
      var t := new TransformCoords.Init(clientR1.value, clientR2.value);
      var o := t.CalcCutterRobotToHolderRobot(cal);
      if o.Fail? {
        return Err(o.error);
      }
      var p := cal.initialWorkspacePosition.value;
      o := t.CalcDefaultPoseHoldersEndeffector(p);
      if o.Fail? {
        return Err(o.error);
      }
      o := t.CalcDefaultPoseWorkspace(p);
      // The same inversion has just succeeded for the end effector's pose.
      assert o.Pass?;
      o := t.CalcEndeffectorToWorkspace();
      if o.Fail? {
        return Err(o.error);
      }
      r := Ok(t);
    }

    method CalcCutterRobotToHolderRobot(cal: Calibration) returns (o: Outcome)
      modifies this
      ensures CutterRobotToHolderRobotOf(cal).Err? ==> o == Fail(CutterRobotToHolderRobotOf(cal).error)
      ensures CutterRobotToHolderRobotOf(cal).Ok? ==> o == Pass
      ensures CurrentFrames() == old(CurrentFrames()).(cutterRobotToHolderRobot :=
        if o.Pass? then CutterRobotToHolderRobotOf(cal).value else old(cutterRobotToHolderRobot))
    {
      if cal.cutterRobotToTrackingSystem.None? || cal.cutterRobotToTrackingSystem.None? {
        return Fail(NullPointer(CalibrationMissing));
      }
      if cal.holderRobotToTrackingSystem.None? {
        return Fail(NullPointer(NoMessage));
      }
      var holderInverse := CreateInversTransformationMatrix(cal.holderRobotToTrackingSystem.value);
      if holderInverse.Err? {
        return Fail(holderInverse.error);
      }
      cutterRobotToHolderRobot := Mul44(cal.cutterRobotToTrackingSystem.value, holderInverse.value);
      o := Pass;
    }

    method CalcDefaultPoseHoldersEndeffector(p: Vec3) returns (o: Outcome)
      modifies this
      ensures var want := RelativeToHolderRobot(old(cutterRobotToHolderRobot), RotPartOfHolderRobotsEndeffectorDefaultPose, p);
        (want.Err? ==> o == Fail(want.error)) && (want.Ok? ==> o == Pass)
        && CurrentFrames() == old(CurrentFrames()).(defaultPoseHoldersEndeffector :=
             if o.Pass? then want.value else old(defaultPoseHoldersEndeffector))
    {
      var cutterRobotToHolderRobotsEndeffector := SetBlock(Zero44, RotPartOfHolderRobotsEndeffectorDefaultPose);
      var homVec := Point(p);
      cutterRobotToHolderRobotsEndeffector := SetColumn3(cutterRobotToHolderRobotsEndeffector, homVec);
      var inverse := CreateInversTransformationMatrix(cutterRobotToHolderRobot);
      if inverse.Err? {
        return Fail(inverse.error);
      }
      defaultPoseHoldersEndeffector := Mul44(inverse.value, cutterRobotToHolderRobotsEndeffector);
      o := Pass;
    }

    method CalcDefaultPoseWorkspace(p: Vec3) returns (o: Outcome)
      modifies this
      ensures var want := RelativeToHolderRobot(old(cutterRobotToHolderRobot), RotPartOfWorkspaceDefaultPose, p);
        (want.Err? ==> o == Fail(want.error)) && (want.Ok? ==> o == Pass)
        && CurrentFrames() == old(CurrentFrames()).(defaultPoseWorkspace :=
             if o.Pass? then want.value else old(defaultPoseWorkspace))
    {
      var cutterRobotToWorkspace := SetBlock(Zero44, RotPartOfWorkspaceDefaultPose);
      var homVec := Point(p);
      cutterRobotToWorkspace := SetColumn3(cutterRobotToWorkspace, homVec);
      var inverse := CreateInversTransformationMatrix(cutterRobotToHolderRobot);
      if inverse.Err? {
        return Fail(inverse.error);
      }
      defaultPoseWorkspace := Mul44(inverse.value, cutterRobotToWorkspace);
      o := Pass;
    }

    method CalcEndeffectorToWorkspace() returns (o: Outcome)
      modifies this
      ensures var want := EndeffectorToWorkspaceOf(old(defaultPoseHoldersEndeffector), old(defaultPoseWorkspace));
        (want.Err? ==> o == Fail(want.error)) && (want.Ok? ==> o == Pass)
        && CurrentFrames() == old(CurrentFrames()).(endeffectorToWorkspace :=
             if o.Pass? then want.value else old(endeffectorToWorkspace))
    {
      var inverse := CreateInversTransformationMatrix(defaultPoseHoldersEndeffector);
      if inverse.Err? {
        return Fail(inverse.error);
      }
      endeffectorToWorkspace := Mul44(inverse.value, defaultPoseWorkspace);
      o := Pass;
    }

    /** cutterRobotToWorkspace: the workspace's default pose seen from the cutter robot. */
    function CutterRobotToWorkspace(): Mat44
      reads this
    {
      Mul44(cutterRobotToHolderRobot, defaultPoseWorkspace)
    }

    /** transformPosWorkspaceToCutterRobot. */
    function TransformPosWorkspaceToCutterRobot(homPosVec: Vec4): Vec4
      reads this
    {
      Apply44(CutterRobotToWorkspace(), homPosVec)
    }

    /**
     * transformPosCutterToHolderRobot: a point relative to the cutter robot, relative to the
     * holder robot; mapping the result back gives the point again.
     */
    method TransformPosCutterToHolderRobot(homPosVec: Vec4) returns (r: Result<Vec4>)
      ensures r.Err? <==> Det3(Block(cutterRobotToHolderRobot)) == 0.0
      ensures r.Ok? ==> r.value == Apply44(InvertRigid(cutterRobotToHolderRobot), homPosVec)
      ensures r.Ok? && IsHomogeneous(cutterRobotToHolderRobot) && homPosVec.w == 1.0 ==>
        Apply44(cutterRobotToHolderRobot, r.value) == homPosVec
    {
      var inverse := CreateInversTransformationMatrix(cutterRobotToHolderRobot);
      if inverse.Err? {
        return Err(inverse.error);
      }
      if IsHomogeneous(cutterRobotToHolderRobot) && homPosVec.w == 1.0 {
        ApplyAfterUndo(cutterRobotToHolderRobot, Xyz(homPosVec));
        assert Point(Xyz(homPosVec)) == homPosVec;
      }
      r := Ok(Apply44(inverse.value, homPosVec));
    }

    /**
     * getTrajectoryMatrixForCuttersEndeffector with the tool offset subtracted from the
     * position part; `currentPose` is what measureCutterRobotPose reads from the robot.
     */
    method GetTrajectoryMatrixForCuttersEndeffector(homPosVec: Vec4, currentPose: Mat44) returns (r: Result<Mat44>)
      ensures r == TrajectoryPose(CutterRobotToWorkspace(), currentPose, homPosVec)
    {
      var posRelCutRobot := TransformPosWorkspaceToCutterRobot(homPosVec);
      var inverse := CreateInversTransformationMatrix(currentPose);
      if inverse.Err? {
        return Err(inverse.error);
      }
      var posRelCutRobotEndeffector := Apply44(inverse.value, posRelCutRobot);
      var endeffectorPositionRelEndeffector :=
        Add3(Scale3(-1.0, Translation(EndeffectorToCutter)), Xyz(posRelCutRobotEndeffector));
      var homEndeffectorPositionRelCutterRobot := Apply44(currentPose, Point(endeffectorPositionRelEndeffector));
      var endeffectorPoseRelCutterRobot := SetBlock(Zero44, StandardCutterToolOrientation);
      endeffectorPoseRelCutterRobot := SetColumn3(endeffectorPoseRelCutterRobot, homEndeffectorPositionRelCutterRobot);
      r := Ok(endeffectorPoseRelCutterRobot);
    }
  }
}
