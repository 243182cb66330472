/**
 * RobotMovement: straight point-to-point trajectories for the cutter robot's end effector and
 * the MoveMinChangeRowWiseStatus commands that move a robot along them.  Every command sent is
 * also recorded, with its client, in a log shared by all instances (the static lists of the
 * manual simulation).
 */
module RobotMovement {
  import opened Wrappers
  import opened Linear
  import opened Homogeneous
  import opened JavaStrings
  import opened Constants
  import TC = TransformCoords

  const DefaultQuantizationStep := 20.0
  const QuantizationStepRange := "quantizationStep must have a value between 1 and 100 mm"
  const CommandName := "MoveMinChangeRowWiseStatus"
  const Configuration := "noflip lefty"
  const Accepted := "true"

  /** Math.abs. */
  function Abs(x: real): real { if x < 0.0 then -x else x }

  // ---------- the straight trajectory ----------

  /**
   * The number of times the trajectory loop runs: the least k with k * step >= distance
   * (none when the distance is not positive).
   */
  function Steps(distance: real, step: real): nat
    requires step > 0.0
  {
    if distance <= 0.0 then 0
    else
      var f := (distance / step).Floor;
      if f as real * step >= distance then f else f + 1
  }

  lemma MulMonotone(a: real, b: real, c: real)
    requires a <= b && c >= 0.0
    ensures a * c <= b * c
  {
    assert (b - a) * c >= 0.0;
  }

  lemma MulStrict(a: real, b: real, c: real)
    requires a < b && c > 0.0
    ensures a * c < b * c
  {
    assert (b - a) * c > 0.0;
  }

  /** One step more or less changes the covered length by one step. */
  lemma StepMore(n: nat, step: real)
    ensures (n + 1) as real * step == n as real * step + step
    ensures n > 0 ==> (n - 1) as real * step == n as real * step - step
  {
    assert (n + 1) as real == n as real + 1.0;
    if n > 0 {
      assert (n - 1) as real == n as real - 1.0;
    }
  }

  /** Scaling by a positive step keeps a number between the same bounds. */
  lemma ScaleBetween(a: real, q: real, b: real, step: real, distance: real)
    requires a <= q < b && step > 0.0 && q * step == distance
    ensures a * step <= distance < b * step
  {
    MulMonotone(a, q, step);
    MulStrict(q, b, step);
  }

  /** Dividing by the step and multiplying back gives the distance, which is then a positive multiple. */
  lemma DivideByStep(distance: real, step: real)
    requires step > 0.0 && distance > 0.0
    ensures distance / step > 0.0 && (distance / step) * step == distance
  {
    var q := distance / step;
    if q <= 0.0 {
      MulMonotone(q, 0.0, step);
    }
  }

  /** The count of steps is the floor of distance / step, or one more. */
  lemma {:induction false} StepsFloor(distance: real, step: real)
    requires step > 0.0 && distance > 0.0
    ensures var f := (distance / step).Floor;
      f >= 0 && f as real * step <= distance < (f + 1) as real * step
  {
    DivideByStep(distance, step);
    var q := distance / step;
    assert q.Floor as real <= q < (q.Floor + 1) as real;
    ScaleBetween(q.Floor as real, q, (q.Floor + 1) as real, step, distance);
  }

  /** Steps is the least count of steps that covers the distance. */
  lemma {:induction false} StepsLeast(distance: real, step: real)
    requires step > 0.0
    ensures Steps(distance, step) as real * step >= distance
    ensures Steps(distance, step) > 0 ==> (Steps(distance, step) - 1) as real * step < distance
  {
    if distance > 0.0 {
      StepsFloor(distance, step);
      StepsCases(distance, step);
      var f: nat := (distance / step).Floor;
      StepMore(f, step);
    }
  }

  /** Steps is the floor of distance / step when that covers the distance, else one more. */
  lemma StepsCases(distance: real, step: real)
    requires step > 0.0 && distance > 0.0
    ensures var f := (distance / step).Floor;
      (f as real * step >= distance ==> Steps(distance, step) == f)
      && (f as real * step < distance ==> Steps(distance, step) == f + 1)
  {}

  /** Any count that covers the distance and would not without its last step is Steps. */
  lemma {:induction false} StepsUnique(distance: real, step: real, k: nat)
    requires step > 0.0
    requires k as real * step >= distance
    requires k > 0 ==> (k - 1) as real * step < distance
    ensures k == Steps(distance, step)
  {
    StepsLeast(distance, step);
    var s := Steps(distance, step);
    if k < s {
      CoverOrder(k, s - 1, distance, step);
    } else if k > s {
      CoverOrder(s, k - 1, distance, step);
    }
  }

  /** A count that covers the distance exceeds one that does not. */
  lemma CoverOrder(a: nat, b: nat, distance: real, step: real)
    requires step > 0.0 && a as real * step >= distance && b as real * step < distance
    ensures b < a
  {
    if a <= b {
      MulMonotone(a as real, b as real, step);
    }
  }

  /** A quotient of a non-negative number by a larger one lies in [0, 1). */
  lemma FractionBelowOne(a: real, d: real)
    requires 0.0 <= a < d
    ensures 0.0 <= a / d < 1.0
  {
    var t := a / d;
    assert t * d == a;
    if t < 0.0 {
      MulStrict(t, 0.0, d);
    }
    if t >= 1.0 {
      MulMonotone(1.0, t, d);
    }
  }

  /** The direction scaled to one quantization step (the loop never runs for a zero distance). */
  function StepVector(direction: Vec3, distance: real, step: real): Vec3 {
    if distance == 0.0 then Zero3
    else Scale3(step, Vec3(direction.x / distance, direction.y / distance, direction.z / distance))
  }

  /** The point j steps along the line from `start`, each step adding `dir` to the last. */
  function Along(start: Vec3, dir: Vec3, j: nat): Vec3 {
    if j == 0 then start else Add3(Along(start, dir, j - 1), dir)
  }

  /** The point j steps along is the start moved by j times the step. */
  lemma {:induction false} AlongScaled(start: Vec3, dir: Vec3, j: nat)
    ensures Along(start, dir, j) == Add3(start, Scale3(j as real, dir))
  {
    if j > 0 {
      AlongScaled(start, dir, j - 1);
      var k := (j - 1) as real;
      assert j as real == k + 1.0;
      assert (k + 1.0) * dir.x == k * dir.x + dir.x;
      assert (k + 1.0) * dir.y == k * dir.y + dir.y;
      assert (k + 1.0) * dir.z == k * dir.z + dir.z;
    }
  }

  /** The first k points along the line, starting with `start` itself. */
  function Walk(start: Vec3, dir: Vec3, k: nat): (r: seq<Vec3>)
    ensures |r| == k
  {
    if k == 0 then [] else Walk(start, dir, k - 1) + [Along(start, dir, k - 1)]
  }

  /** The j-th point of the walk is j steps along. */
  lemma {:induction false} WalkAt(start: Vec3, dir: Vec3, k: nat, j: nat)
    requires j < k
    ensures Walk(start, dir, k)[j] == Along(start, dir, j)
  {
    if j < k - 1 {
      WalkAt(start, dir, k - 1, j);
    }
  }

  /** The trajectory: the start, k points along the line (the first again the start), the end. */
  function StraightTrajectory(start: Vec3, end: Vec3, dir: Vec3, k: nat): seq<Vec3> {
    [start] + Walk(start, dir, k) + [end]
  }

  /** The trajectory calcP2PTrajectoryForStraight returns for two homogeneous positions. */
  function P2PTrajectory(homStartPos: Vec4, homEndPos: Vec4, step: real, norm: Vec3 -> real): seq<Vec3>
    requires step > 0.0
  {
    var direction := Sub3(Xyz(homEndPos), Xyz(homStartPos));
    var distance := norm(direction);
    StraightTrajectory(Xyz(homStartPos), Xyz(homEndPos), StepVector(direction, distance, step), Steps(distance, step))
  }

  /**
   * The shape of a trajectory: start first, end last, the start repeated second, and every
   * consecutive pair of points between them one step apart.
   */
  lemma TrajectoryShape(start: Vec3, end: Vec3, dir: Vec3, k: nat)
    ensures var r := StraightTrajectory(start, end, dir, k);
      |r| == k + 2 && r[0] == start && r[k + 1] == end
    ensures k > 0 ==> StraightTrajectory(start, end, dir, k)[1] == start
    ensures forall j :: 1 <= j < k ==>
      Sub3(StraightTrajectory(start, end, dir, k)[j + 1], StraightTrajectory(start, end, dir, k)[j]) == dir
  {
    var r := StraightTrajectory(start, end, dir, k);
    if k > 0 {
      WalkAt(start, dir, k, 0);
    }
    forall j | 1 <= j < k
      ensures Sub3(r[j + 1], r[j]) == dir
    {
      WalkAt(start, dir, k, j);
      WalkAt(start, dir, k, j - 1);
      assert r[j + 1] == Along(start, dir, j);
      assert r[j] == Along(start, dir, j - 1);
    }
  }

  /**
   * Start and end at the same place: the trajectory is just the two of them (the norm, which
   * RealVector.getNorm computes, is zero for the zero vector).
   */
  lemma TrajectoryOfNoDistance(homStartPos: Vec4, homEndPos: Vec4, step: real, norm: Vec3 -> real)
    requires step > 0.0 && norm(Zero3) == 0.0
    requires Xyz(homStartPos) == Xyz(homEndPos)
    ensures P2PTrajectory(homStartPos, homEndPos, step, norm) == [Xyz(homStartPos), Xyz(homEndPos)]
  {
    var d := Sub3(Xyz(homEndPos), Xyz(homStartPos));
    assert d == Zero3;
    assert Walk(Xyz(homStartPos), StepVector(d, 0.0, step), 0) == [];
  }

  /**
   * Each point between start and end lies on the segment from start to end, at the fraction
   * j * step / distance of the way, which is below 1.
   */
  lemma {:induction false} TrajectoryOnSegment(homStartPos: Vec4, homEndPos: Vec4, step: real, norm: Vec3 -> real, j: nat)
    requires step > 0.0
    requires var distance := norm(Sub3(Xyz(homEndPos), Xyz(homStartPos))); j < Steps(distance, step)
    ensures var t := j as real * step / norm(Sub3(Xyz(homEndPos), Xyz(homStartPos)));
      0.0 <= t < 1.0
    ensures var start := Xyz(homStartPos);
      var direction := Sub3(Xyz(homEndPos), start);
      var t := j as real * step / norm(direction);
      P2PTrajectory(homStartPos, homEndPos, step, norm)[j + 1] == Add3(start, Scale3(t, direction))
  {
    var start := Xyz(homStartPos);
    var direction := Sub3(Xyz(homEndPos), start);
    var distance := norm(direction);
    var k := Steps(distance, step);
    assert distance > 0.0;
    FractionOfDistance(distance, step, j, k);
    var dir := StepVector(direction, distance, step);
    var r := P2PTrajectory(homStartPos, homEndPos, step, norm);
    WalkAt(start, dir, k, j);
    assert r[j + 1] == Walk(start, dir, k)[j] == Along(start, dir, j);
    AlongScaled(start, dir, j);
    ScaledStep(direction, distance, step, j);
  }

  /** The fraction of the distance covered after j of k steps, j < k, lies in [0, 1). */
  lemma FractionOfDistance(distance: real, step: real, j: nat, k: nat)
    requires step > 0.0 && distance > 0.0 && j < k == Steps(distance, step)
    ensures 0.0 <= j as real * step / distance < 1.0
  {
    StepsLeast(distance, step);
    MulMonotone(j as real, (k - 1) as real, step);
    FractionBelowOne(j as real * step, distance);
  }

  /** j step vectors make up the fraction j * step / distance of the direction. */
  lemma ScaledStep(direction: Vec3, distance: real, step: real, j: nat)
    requires distance > 0.0
    ensures Scale3(j as real, StepVector(direction, distance, step)) == Scale3(j as real * step / distance, direction)
  {
    QuotientScale(j as real, step, distance, direction.x);
    QuotientScale(j as real, step, distance, direction.y);
    QuotientScale(j as real, step, distance, direction.z);
  }

  lemma QuotientScale(j: real, step: real, d: real, x: real)
    requires d != 0.0
    ensures j * (step * (x / d)) == (j * step / d) * x
  {
  }

  /** For a positive distance each step is exactly one quantization step long. */
  lemma StepLength(direction: Vec3, distance: real, step: real)
    requires distance > 0.0 && distance * distance == Dot3(direction, direction)
    ensures Dot3(StepVector(direction, distance, step), StepVector(direction, distance, step)) == step * step
  {
    var c := step / distance;
    var u := StepVector(direction, distance, step);
    StepVectorScaled(direction, distance, step);
    DotScaleLeft(c, direction, Scale3(c, direction));
    DotScaleRight(c, direction, direction);
    assert c * distance == step;
    SquareOfProduct(Dot3(u, u), Dot3(direction, Scale3(c, direction)), Dot3(direction, direction), c, distance, step);
  }

  /** The step vector is the direction scaled by step / distance. */
  lemma StepVectorScaled(direction: Vec3, distance: real, step: real)
    requires distance != 0.0
    ensures StepVector(direction, distance, step) == Scale3(step / distance, direction)
  {
    QuotientSwap(step, distance, direction.x);
    QuotientSwap(step, distance, direction.y);
    QuotientSwap(step, distance, direction.z);
  }

  lemma QuotientSwap(step: real, d: real, x: real)
    requires d != 0.0
    ensures step * (x / d) == (step / d) * x
  {}

  lemma SquareOfProduct(a: real, b: real, z: real, c: real, d: real, step: real)
    requires a == c * b && b == c * z && z == d * d && c * d == step
    ensures a == step * step
  {}

  // ---------- the command ----------

  /** The entries, each preceded by a space, as the command string concatenates them. */
  function Spaced(vals: seq<real>, show: real -> string): string {
    if |vals| == 0 then "" else " " + show(vals[0]) + Spaced(vals[1..], show)
  }

  /** The entries as strings (Double.toString is `show`). */
  function Shown(vals: seq<real>, show: real -> string): (r: seq<string>)
    ensures |r| == |vals|
    ensures forall i :: 0 <= i < |vals| ==> r[i] == show(vals[i])
  {
    seq(|vals|, i requires 0 <= i < |vals| => show(vals[i]))
  }

  /** The command moveMinChange sends for a pose: its first three rows, row by row. */
  function MoveCommand(pose: Mat44, show: real -> string): string {
    CommandName + Spaced(TC.RowMajor(pose), show) + " " + Configuration
  }

  /** The words of the command: name, the twelve entries, the two configuration flags. */
  function CommandWords(pose: Mat44, show: real -> string): seq<string> {
    [CommandName] + Shown(TC.RowMajor(pose), show) + ["noflip", "lefty"]
  }

  /** Double.toString gives one space-free word that Double.parseDouble reads back. */
  ghost predicate RoundTrips(show: real -> string, parse: Parser) {
    forall v :: IsWord(show(v)) && parse(show(v)) == Some(v)
  }

  lemma {:induction false} SpacedJoin(w: string, vals: seq<real>, show: real -> string)
    ensures w + Spaced(vals, show) == Join([w] + Shown(vals, show))
    decreases |vals|
  {
    if |vals| > 0 {
      var rest := Shown(vals[1..], show);
      assert Shown(vals, show) == [show(vals[0])] + rest;
      SpacedJoin(show(vals[0]), vals[1..], show);
      assert [w] + Shown(vals, show) == [w] + ([show(vals[0])] + rest);
      assert ([w] + ([show(vals[0])] + rest))[1..] == [show(vals[0])] + rest;
    }
  }

  /** The command string is its words joined by single spaces. */
  lemma {:induction false} MoveCommandIsJoin(pose: Mat44, show: real -> string)
    ensures MoveCommand(pose, show) == Join(CommandWords(pose, show))
  {
    var head := [CommandName] + Shown(TC.RowMajor(pose), show);
    SpacedJoin(CommandName, TC.RowMajor(pose), show);
    JoinAppend(head, ["noflip", "lefty"]);
    assert Join(["noflip", "lefty"]) == Configuration;
  }

  /**
   * The receiving side splits the command back into its words: the name, the twelve entries
   * of the pose, each parsing back to its value, and the two flags.
   */
  lemma {:induction false} MoveCommandTokens(pose: Mat44, show: real -> string, parse: Parser)
    requires RoundTrips(show, parse)
    ensures var tokens := Split(MoveCommand(pose, show));
      |tokens| == 15 && tokens[0] == CommandName && tokens[13..] == ["noflip", "lefty"]
    ensures var tokens := Split(MoveCommand(pose, show));
      forall i :: 0 <= i < PoseEntries ==> parse(tokens[i + 1]) == Some(TC.RowMajor(pose)[i])
  {
    var words := CommandWords(pose, show);
    SplitJoinWords(pose, show, parse);
    forall i | 0 <= i < PoseEntries
      ensures parse(words[i + 1]) == Some(TC.RowMajor(pose)[i])
    {
      var v := TC.RowMajor(pose)[i];
      assert words[i + 1] == show(v);
      assert parse(show(v)) == Some(v);
    }
  }

  /** The twelve entry words of a command, read as a pose reply, give the pose back. */
  lemma {:induction false} MoveCommandPose(pose: Mat44, show: real -> string, parse: Parser)
    requires RoundTrips(show, parse) && IsHomogeneous(pose)
    ensures |Split(MoveCommand(pose, show))| == 15
    ensures TC.PoseFromReply(Join(Split(MoveCommand(pose, show))[1..13]), parse) == Ok(pose)
  {
    SplitJoinWords(pose, show, parse);
    var words := CommandWords(pose, show)[1..13];
    forall i | 0 <= i < PoseEntries
      ensures IsWord(words[i]) && parse(words[i]) == Some(TC.RowMajor(pose)[i])
    {
      var v := TC.RowMajor(pose)[i];
      assert words[i] == show(v);
      assert IsWord(show(v)) && parse(show(v)) == Some(v);
    }
    TC.PoseFromJoinedReply(words, pose, parse);
  }

  /** Splitting the command gives exactly its words. */
  lemma {:induction false} SplitJoinWords(pose: Mat44, show: real -> string, parse: Parser)
    requires RoundTrips(show, parse)
    ensures Split(MoveCommand(pose, show)) == CommandWords(pose, show)
  {
    var words := CommandWords(pose, show);
    MoveCommandIsJoin(pose, show);
    forall i | 0 <= i < |words|
      ensures IsWord(words[i])
    {
      if 1 <= i <= PoseEntries {
        var v := TC.RowMajor(pose)[i - 1];
        assert words[i] == show(v);
        assert IsWord(show(v));
      } else if i == 0 {
        assert ' ' !in CommandName;
      }
    }
    SplitJoin(words);
  }

  /** n copies of a client, one per command sent to it. */
  function Repeat(client: TC.TcpClient, n: nat): (r: seq<TC.TcpClient>)
    ensures |r| == n
  {
    if n == 0 then [] else Repeat(client, n - 1) + [client]
  }

  /** Every entry is the client. */
  lemma {:induction false} RepeatAt(client: TC.TcpClient, n: nat, i: nat)
    requires i < n
    ensures Repeat(client, n)[i] == client
  {
    if i < n - 1 {
      RepeatAt(client, n - 1, i);
    }
  }

  /** One more move by the same client extends the clients by it. */
  lemma RepeatStep(clients: seq<TC.TcpClient>, client: TC.TcpClient, n: nat)
    ensures clients + Repeat(client, n + 1) == clients + Repeat(client, n) + [client]
  {}

  /** The pose movementHandler sends for one point: the orientation and the point as last column. */
  function PoseAt(rot: Mat33, pos: Vec3): Mat44 {
    HomMatrix(rot, pos)
  }

  /** The commands movementHandler sends for the points, in order. */
  function HandlerCommands(positions: seq<Vec3>, rot: Mat33, show: real -> string): (r: seq<string>)
    ensures |r| == |positions|
  {
    if |positions| == 0 then []
    else
      var last := MoveCommand(PoseAt(rot, positions[|positions| - 1]), show);
      HandlerCommands(positions[..|positions| - 1], rot, show) + [last]
  }

  /** The j-th command moves to the j-th point with the given orientation. */
  lemma {:induction false} HandlerCommandsAt(positions: seq<Vec3>, rot: Mat33, show: real -> string, j: nat)
    requires j < |positions|
    ensures HandlerCommands(positions, rot, show)[j] == MoveCommand(PoseAt(rot, positions[j]), show)
    decreases |positions|
  {
    var n := |positions| - 1;
    if j < n {
      HandlerCommandsAt(positions[..n], rot, show, j);
    }
  }

  /** One more point adds its command after those already sent. */
  lemma HandlerCommandsStep(sent: seq<string>, positions: seq<Vec3>, j: nat, rot: Mat33, show: real -> string)
    requires j < |positions|
    ensures sent + HandlerCommands(positions[..j + 1], rot, show)
      == sent + HandlerCommands(positions[..j], rot, show) + [MoveCommand(PoseAt(rot, positions[j]), show)]
  {
    assert positions[..j + 1][..j] == positions[..j];
  }

  /**
   * The j-th command carries the j-th point in the words 4, 8 and 12, and the orientation's
   * rows in the words 1-3, 5-7 and 9-11.
   */
  lemma {:induction false} HandlerCommandCarriesPoint(positions: seq<Vec3>, rot: Mat33, show: real -> string,
                                                       parse: Parser, j: nat)
    requires RoundTrips(show, parse) && j < |positions|
    ensures var tokens := Split(HandlerCommands(positions, rot, show)[j]);
      |tokens| == 15 && parse(tokens[4]) == Some(positions[j].x)
      && parse(tokens[8]) == Some(positions[j].y) && parse(tokens[12]) == Some(positions[j].z)
    ensures var tokens := Split(HandlerCommands(positions, rot, show)[j]);
      parse(tokens[1]) == Some(rot.m00) && parse(tokens[2]) == Some(rot.m01) && parse(tokens[3]) == Some(rot.m02)
      && parse(tokens[5]) == Some(rot.m10) && parse(tokens[6]) == Some(rot.m11) && parse(tokens[7]) == Some(rot.m12)
      && parse(tokens[9]) == Some(rot.m20) && parse(tokens[10]) == Some(rot.m21) && parse(tokens[11]) == Some(rot.m22)
  {
    var pose := PoseAt(rot, positions[j]);
    HandlerCommandsAt(positions, rot, show, j);
    MoveCommandTokens(pose, show, parse);
    var tokens := Split(MoveCommand(pose, show));
    assert parse(tokens[3 + 1]) == Some(TC.RowMajor(pose)[3]);
    assert parse(tokens[7 + 1]) == Some(TC.RowMajor(pose)[7]);
    assert parse(tokens[11 + 1]) == Some(TC.RowMajor(pose)[11]);
    assert parse(tokens[0 + 1]) == Some(TC.RowMajor(pose)[0]);
    assert parse(tokens[1 + 1]) == Some(TC.RowMajor(pose)[1]);
    assert parse(tokens[2 + 1]) == Some(TC.RowMajor(pose)[2]);
    assert parse(tokens[4 + 1]) == Some(TC.RowMajor(pose)[4]);
    assert parse(tokens[5 + 1]) == Some(TC.RowMajor(pose)[5]);
    assert parse(tokens[6 + 1]) == Some(TC.RowMajor(pose)[6]);
    assert parse(tokens[8 + 1]) == Some(TC.RowMajor(pose)[8]);
    assert parse(tokens[9 + 1]) == Some(TC.RowMajor(pose)[9]);
    assert parse(tokens[10 + 1]) == Some(TC.RowMajor(pose)[10]);
  }

  /**
   * The loop of calcP2PTrajectoryForStraight: from the start, one point per step until the
   * steps covered reach the distance, each point the previous one plus the step vector.
   */
  method WalkToDistance(start: Vec3, directionVector: Vec3, distanceStartToEnd: real, quantizationStep: real)
    returns (trajectoryPoints: seq<Vec3>)
    requires quantizationStep > 0.0
    ensures trajectoryPoints == [start] + Walk(start, directionVector, Steps(distanceStartToEnd, quantizationStep))
  {
    trajectoryPoints := [start];
    var currentPoint := start;
    var currentLength := 0.0;
    ghost var steps := Steps(distanceStartToEnd, quantizationStep);
    ghost var i: nat := 0;
    StepsLeast(distanceStartToEnd, quantizationStep);
    while currentLength < distanceStartToEnd
      invariant i <= steps
      invariant currentLength == i as real * quantizationStep
      invariant i > 0 ==> (i - 1) as real * quantizationStep < distanceStartToEnd
      invariant trajectoryPoints == [start] + Walk(start, directionVector, i)
      invariant currentPoint == Along(start, directionVector, i)
      decreases steps - i
    {
      if i == steps {
        assert false;
      }
      trajectoryPoints := trajectoryPoints + [currentPoint];
      currentPoint := Add3(trajectoryPoints[|trajectoryPoints| - 1], directionVector);
      currentLength := currentLength + quantizationStep;
      i := i + 1;
    }
    StepsUnique(distanceStartToEnd, quantizationStep, i);
  }

  /** The largest absolute value among the first three rows and four columns. */
  method MaxDeviation(deviationPoseMatrix: array2<real>) returns (maxDeviation: real)
    requires deviationPoseMatrix.Length0 >= 3 && deviationPoseMatrix.Length1 >= 4
    ensures forall row, col :: 0 <= row < 3 && 0 <= col < 4 ==> Abs(deviationPoseMatrix[row, col]) <= maxDeviation
    ensures exists row, col :: 0 <= row < 3 && 0 <= col < 4 && maxDeviation == Abs(deviationPoseMatrix[row, col])
  {
    maxDeviation := 0.0;
    ghost var bestRow, bestCol := 0, 0;
    var row := 0;
    while row < 3
      invariant 0 <= row <= 3 && 0 <= bestRow < 3 && 0 <= bestCol < 4
      invariant forall r, c :: 0 <= r < row && 0 <= c < 4 ==> Abs(deviationPoseMatrix[r, c]) <= maxDeviation
      invariant maxDeviation == 0.0 || maxDeviation == Abs(deviationPoseMatrix[bestRow, bestCol])
    {
      var col := 0;
      while col < 4
        invariant 0 <= col <= 4 && 0 <= bestRow < 3 && 0 <= bestCol < 4
        invariant forall r, c :: 0 <= r < row && 0 <= c < 4 ==> Abs(deviationPoseMatrix[r, c]) <= maxDeviation
        invariant forall c :: 0 <= c < col ==> Abs(deviationPoseMatrix[row, c]) <= maxDeviation
        invariant maxDeviation == 0.0 || maxDeviation == Abs(deviationPoseMatrix[bestRow, bestCol])
      {
        var nextValue := Abs(deviationPoseMatrix[row, col]);
        if nextValue > maxDeviation {
          maxDeviation := nextValue;
          bestRow, bestCol := row, col;
        }
        col := col + 1;
      }
      row := row + 1;
    }
    if maxDeviation == 0.0 {
      bestRow, bestCol := 0, 0;
    }
    assert maxDeviation == Abs(deviationPoseMatrix[bestRow, bestCol]);
  }

  /** The static lists commandsDuringCutting and clientForEachCommand, kept side by side. */
  class CommandLog {
    var commands: seq<string>
    var clients: seq<TC.TcpClient>

    predicate Valid()
      reads this
    {
      |commands| == |clients|
    }

    constructor ()
      ensures commands == [] && clients == [] && Valid()
    {
      commands := [];
      clients := [];
    }
  }

  class RobotMovement {
    const transformCoords: TC.TransformCoords
    const log: CommandLog
    var neutralPosition: Option<Vec4>
    var auxiliaryPosition: Option<Vec4>
    var quantizationStep: real

    /** The quantization step always lies strictly between 1 and 100 mm. */
    predicate Valid()
      reads this
    {
      1.0 < quantizationStep < 100.0
    }

    constructor (transformCoords: TC.TransformCoords, log: CommandLog)
      ensures this.transformCoords == transformCoords && this.log == log
      ensures quantizationStep == DefaultQuantizationStep && Valid()
      ensures neutralPosition.None? && auxiliaryPosition.None?
    {
      this.transformCoords := transformCoords;
      this.log := log;
      neutralPosition := None;
      auxiliaryPosition := None;
      quantizationStep := 0.0;
      new;
      var o := SetQuantizationStep(DefaultQuantizationStep);
    }

    /** The orientation movementHandler uses: the tool's for the cutter robot, else the holder's. */
    function RotationFor(client: TC.TcpClient): Mat33
      reads this
    {
      if client == transformCoords.clientR1 then TC.StandardCutterToolOrientation
      else TC.RotPartOfHolderRobotsEndeffectorDefaultPose
    }

    /** setQuantizationStep: values outside (1, 100) are refused and leave the step as it was. */
    method SetQuantizationStep(stepValue: real) returns (o: Outcome)
      modifies this
      ensures o.Pass? <==> 1.0 < stepValue < 100.0
      ensures o.Fail? ==> o.error == IllegalArgument(QuantizationStepRange)
      ensures quantizationStep == if o.Pass? then stepValue else old(quantizationStep)
      ensures neutralPosition == old(neutralPosition) && auxiliaryPosition == old(auxiliaryPosition)
      ensures old(Valid()) ==> Valid()
    {
      if !(1.0 < stepValue && stepValue < 100.0) {
        return Fail(IllegalArgument(QuantizationStepRange));
      }
      quantizationStep := stepValue;
      o := Pass;
    }

    /**
     * setNeutralPosition: the last column of the trajectory pose for a point of the workspace;
     * `currentPose` is the cutter robot's measured pose.  A failure leaves the position as it was.
     */
    method SetNeutralPosition(homPosVector4x1: Vec4, currentPose: Mat44) returns (o: Outcome)
      modifies this
      ensures var want := TC.TrajectoryPose(transformCoords.CutterRobotToWorkspace(), currentPose, homPosVector4x1);
        (o.Pass? <==> want.Ok?) && (o.Fail? ==> o.error == want.error)
        && neutralPosition == (if want.Ok? then Some(Col4(want.value, 3)) else old(neutralPosition))
      ensures auxiliaryPosition == old(auxiliaryPosition) && quantizationStep == old(quantizationStep)
    {
      var pose := transformCoords.GetTrajectoryMatrixForCuttersEndeffector(homPosVector4x1, currentPose);
      if pose.Err? {
        return Fail(pose.error);
      }
      neutralPosition := Some(Col4(pose.value, 3));
      o := Pass;
    }

    /** setAuxiliaryPosition, the same for the auxiliary position. */
    method SetAuxiliaryPosition(homPosVector4x1: Vec4, currentPose: Mat44) returns (o: Outcome)
      modifies this
      ensures var want := TC.TrajectoryPose(transformCoords.CutterRobotToWorkspace(), currentPose, homPosVector4x1);
        (o.Pass? <==> want.Ok?) && (o.Fail? ==> o.error == want.error)
        && auxiliaryPosition == (if want.Ok? then Some(Col4(want.value, 3)) else old(auxiliaryPosition))
      ensures neutralPosition == old(neutralPosition) && quantizationStep == old(quantizationStep)
    {
      var pose := transformCoords.GetTrajectoryMatrixForCuttersEndeffector(homPosVector4x1, currentPose);
      if pose.Err? {
        return Fail(pose.error);
      }
      auxiliaryPosition := Some(Col4(pose.value, 3));
      o := Pass;
    }

    /**
     * calcP2PTrajectoryForStraight: the start, then points one quantization step apart from
     * the start towards the end until the distance is covered, then the end.
     */
    method CalcP2PTrajectoryForStraight(homStartPos: Vec4, homEndPos: Vec4, norm: Vec3 -> real)
      returns (trajectoryPoints: seq<Vec3>)
      requires Valid()
      ensures trajectoryPoints == P2PTrajectory(homStartPos, homEndPos, quantizationStep, norm)
    {
      var directionVector := Sub3(Xyz(homEndPos), Xyz(homStartPos));
      var distanceStartToEnd := norm(directionVector);
      directionVector := StepVector(directionVector, distanceStartToEnd, quantizationStep);
      trajectoryPoints := WalkToDistance(Xyz(homStartPos), directionVector, distanceStartToEnd, quantizationStep);
      trajectoryPoints := trajectoryPoints + [Xyz(homEndPos)];
    }

    /**
     * moveMinChange: sends the command for the pose, records it with its client, and reports
     * whether the robot answered "true" (surrounding white space ignored).  `response` is the
     * robot's answer.
     */
    method MoveMinChange(poseMatrix: Mat44, client: TC.TcpClient, response: string, show: real -> string)
      returns (accepted: bool)
      modifies log
      ensures log.commands == old(log.commands) + [MoveCommand(poseMatrix, show)]
      ensures log.clients == old(log.clients) + [client]
      ensures log.Valid() <==> old(log.Valid())
      ensures accepted <==> Trim(response) == Accepted
    {
      var command := MoveCommand(poseMatrix, show);
      log.commands := log.commands + [command];
      log.clients := log.clients + [client];
      var trimmed := Trim(response);
      accepted := Accepted == trimmed;
    }

    /**
     * movementHandler: one command per point, in order, each with the point as the last column
     * of the pose; `reply(j)` is the answer to the j-th command.
     */
    method MovementHandler(positions: seq<Vec3>, client: TC.TcpClient, reply: nat -> string, show: real -> string)
      modifies log
      ensures log.commands == old(log.commands) + HandlerCommands(positions, RotationFor(client), show)
      ensures log.clients == old(log.clients) + Repeat(client, |positions|)
      ensures log.Valid() <==> old(log.Valid())
    {
      var rotMat := RotationFor(client);
      var poseMatrix3x4 := PoseAt(rotMat, Zero3);
      ghost var commands, clients := log.commands, log.clients;
      var j := 0;
      while j < |positions|
        invariant 0 <= j <= |positions|
        invariant log.commands == commands + HandlerCommands(positions[..j], rotMat, show)
        invariant log.clients == clients + Repeat(client, j)
      {
        poseMatrix3x4 := PoseAt(rotMat, positions[j]);
        var accepted := MoveMinChange(poseMatrix3x4, client, reply(j), show);
        HandlerCommandsStep(commands, positions, j, rotMat, show);
        RepeatStep(clients, client, j);
        j := j + 1;
      }
      assert positions[..j] == positions;
    }

    /**
     * moveCutterP2P: both workspace points become cutter-robot positions through the trajectory
     * pose, and the cutter robot is moved along the straight line between them.
     */
    method MoveCutterP2P(startPosition: Vec4, endPosition: Vec4, currentPose: Mat44, norm: Vec3 -> real,
                         reply: nat -> string, show: real -> string) returns (o: Outcome)
      requires Valid()
      modifies log
      ensures var w := transformCoords.CutterRobotToWorkspace();
        var s := TC.TrajectoryPose(w, currentPose, startPosition);
        var e := TC.TrajectoryPose(w, currentPose, endPosition);
        (o.Pass? <==> s.Ok? && e.Ok?)
        && (o.Fail? ==> o.error == if s.Err? then s.error else e.error)
        && log.commands == old(log.commands) + (if o.Fail? then [] else
             HandlerCommands(P2PTrajectory(Col4(s.value, 3), Col4(e.value, 3), quantizationStep, norm),
                             TC.StandardCutterToolOrientation, show))
        && log.clients == old(log.clients) + (if o.Fail? then [] else
             Repeat(transformCoords.clientR1, |P2PTrajectory(Col4(s.value, 3), Col4(e.value, 3), quantizationStep, norm)|))
    {
      var startPose := transformCoords.GetTrajectoryMatrixForCuttersEndeffector(startPosition, currentPose);
      if startPose.Err? {
        return Fail(startPose.error);
      }
      var endPose := transformCoords.GetTrajectoryMatrixForCuttersEndeffector(endPosition, currentPose);
      if endPose.Err? {
        return Fail(endPose.error);
      }
      var trajectory := CalcP2PTrajectoryForStraight(Col4(startPose.value, 3), Col4(endPose.value, 3), norm);
      MovementHandler(trajectory, transformCoords.clientR1, reply, show);
      o := Pass;
    }

    /**
     * moveToNeutralPosition: along the straight line from the measured position to the neutral
     * one; with no neutral position set the reading fails with a null pointer.
     */
    method MoveToNeutralPosition(currentPose: Mat44, norm: Vec3 -> real, reply: nat -> string, show: real -> string)
      returns (o: Outcome)
      requires Valid()
      modifies log
      ensures (o.Pass? <==> neutralPosition.Some?) && (o.Fail? ==> o.error == NullPointer(TC.NoMessage))
      ensures log.commands == old(log.commands) + (if o.Fail? then [] else
        HandlerCommands(P2PTrajectory(Col4(currentPose, 3), neutralPosition.value, quantizationStep, norm),
                        TC.StandardCutterToolOrientation, show))
      ensures log.clients == old(log.clients) + (if o.Fail? then [] else
        Repeat(transformCoords.clientR1, |P2PTrajectory(Col4(currentPose, 3), neutralPosition.value, quantizationStep, norm)|))
    {
      if neutralPosition.None? {
        return Fail(NullPointer(TC.NoMessage));
      }
      var trajectory := CalcP2PTrajectoryForStraight(Col4(currentPose, 3), neutralPosition.value, norm);
      MovementHandler(trajectory, transformCoords.clientR1, reply, show);
      o := Pass;
    }

    /** moveToAuxiliaryPosition, the same towards the auxiliary position. */
    method MoveToAuxiliaryPosition(currentPose: Mat44, norm: Vec3 -> real, reply: nat -> string, show: real -> string)
      returns (o: Outcome)
      requires Valid()
      modifies log
      ensures (o.Pass? <==> auxiliaryPosition.Some?) && (o.Fail? ==> o.error == NullPointer(TC.NoMessage))
      ensures log.commands == old(log.commands) + (if o.Fail? then [] else
        HandlerCommands(P2PTrajectory(Col4(currentPose, 3), auxiliaryPosition.value, quantizationStep, norm),
                        TC.StandardCutterToolOrientation, show))
      ensures log.clients == old(log.clients) + (if o.Fail? then [] else
        Repeat(transformCoords.clientR1, |P2PTrajectory(Col4(currentPose, 3), auxiliaryPosition.value, quantizationStep, norm)|))
    {
      if auxiliaryPosition.None? {
        return Fail(NullPointer(TC.NoMessage));
      }
      var trajectory := CalcP2PTrajectoryForStraight(Col4(currentPose, 3), auxiliaryPosition.value, norm);
      MovementHandler(trajectory, transformCoords.clientR1, reply, show);
      o := Pass;
    }
  }
}
