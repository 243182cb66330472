# StyroCutRobot in Dafny

StyroCutRobot drives two industrial robots that cut a styrofoam cylinder. The cutter robot (R1) holds a hot-wire tool. The holder robot (R2) holds and turns the cylinder. Both are located through a tracking system.

This project models in Dafny the part of the program that keeps track of poses, plus the small routines around it, and proves what that part promises:

- `Linear` and `Homogeneous`: 3x3 matrices and 4x4 homogeneous transforms over exact `real` arithmetic. This includes the inverse of a rigid transform.
- `TransformCoords` (`src/robprakt/cutting/TransformCoords.java`):
  - the chain from the tracking system to the cutter robot, the holder robot, the holder's end effector and the workspace;
  - the inversion of homogeneous transforms;
  - the parsing of a robot's pose reply;
  - the pose the cutter robot must take so that its tool reaches a workspace point.
- `RobotMovement` (`src/robprakt/cutting/RobotMovement.java`):
  - the quantization step;
  - the straight point-to-point trajectory;
  - the `MoveMinChangeRowWiseStatus` command and the log of sent commands;
  - the movement handler;
  - the largest deviation.
- `CuttingLogic` (`src/robprakt/cutting/CuttingLogic.java`):
  - the neutral and auxiliary points;
  - the rotation angle of a facet and the rotation about x;
  - the holder's pose per facet;
  - the `cut` flag and its command sequence;
  - the plane of each facet, its intersections with the edges of the cylinder's outline, and the start point of its first cut.
- `Triangle` (`src/robprakt/cutting/Triangle.java`): facets with their normalised edge normal.
- `Constants` (`src/robprakt/Constants.java`): `convertPoseDataToDoubleArray`. `JavaStrings` holds the `String.split(" ")` and `String.trim()` it relies on.
- `TestDataGenerator` (`src/robCalibration/testDataGenerator.java`): synthetic measurements for the calibration equation M·X = Y·N, its four lists, and the noise on N.

Matrices and vectors are flat datatypes (`Vec3`, `Mat33`, `Vec4`, `Mat44`). Objects whose fields the Java code updates are classes: `TransformCoords`, `RobotMovement`, the static command lists (`CommandLog`), `CuttingLogic` and `TestDataGenerator`. Methods with loops are `while` loops with invariants, proved against specification functions. Exceptions become `Result` values.

Everything outside the program is a parameter:

- the robots' TCP replies;
- `Math.sin`/`Math.cos`, vector norms and `Vector2D.angle`;
- `Double.parseDouble` and `Double.toString`;
- the values drawn from `java.util.Random`.

## Model

| member | source | states |
|---|---|---|
| Constants.ReadFrom | src/robprakt/Constants.java:39-48 | the values read from a counter on are fewer than the entries left, and none past the last entry |
| Constants.ReadFromSpec | src/robprakt/Constants.java:39-48 | every value read is its token's parse; reading ends at entry 12 or at the first token that is not a number (the exception is caught); a missing token is an index error naming it, after tokens that all parse |
| Constants.PaddedSpec | src/robprakt/Constants.java:37 | the result holds the values read first and zeros in the rest of the fresh array |
| Constants.PoseData | src/robprakt/Constants.java:35-50 | a successful conversion always has 12 entries |
| Constants.PoseDataEdges | src/robprakt/Constants.java:39-41 | a negative index fails on its first token; an index of 12 or more returns twelve zeros |
| Constants.ConvertPoseDataToDoubleArray | src/robprakt/Constants.java:35-50 | the array loop computes exactly PoseData: entry j is token index + j while the tokens parse, zeros after, an index error for a missing token |
| Constants.Store | src/robprakt/Constants.java:40 | one array cell is written and nothing else changes |
| Constants.ParsedPrefix | src/robprakt/Constants.java:39-41 | tokens that all parse are read in order and reading goes on after them |
| Constants.ReadStops | src/robprakt/Constants.java:39-49 | reading that stops at the last entry or at a non-number returns what was read, padded with zeros |
| Constants.ReadMissing | src/robprakt/Constants.java:39-41 | asking for a token past the end of the split fails with that index |
| Constants.ReadJoined | src/robprakt/Constants.java:35-50 | twelve space-free number words joined by spaces are read back entry for entry |
| Constants.ReadAll | src/robprakt/Constants.java:39-41 | twelve parsing tokens are all read |
| JavaStrings.Pieces | src/robprakt/Constants.java:36 | the split pieces are never fewer than one, and exactly one when there is no space |
| JavaStrings.DropTrailingEmptySpec | src/robprakt/Constants.java:36 | split with limit 0 drops exactly the run of trailing empty pieces |
| JavaStrings.SplitJoin | src/robprakt/Constants.java:36 | splitting words joined by single spaces gives the words back |
| JavaStrings.PiecesJoin | src/robprakt/Constants.java:36 | the pieces of words joined by spaces are the words |
| JavaStrings.TrimSpec | src/robprakt/cutting/RobotMovement.java:249 | trim keeps a contiguous middle part; what it cuts is control characters or spaces; the result neither starts nor ends with one |
| Triangle.Normalize | src/robprakt/cutting/Triangle.java:16-21 | normalising fails exactly for a vector of norm zero; otherwise the norm times the result is the vector |
| Triangle.MadeTriangle | src/robprakt/cutting/Triangle.java:10-30 | a triangle is made exactly when the edge normal is non-zero; its vertices come back in order and its normal is the normalised edge normal |
| Triangle.EdgeNormalOrthogonal | src/robprakt/cutting/Triangle.java:16-21 | the edge normal is orthogonal to all three edges |
| Triangle.NormalOrthogonal | src/robprakt/cutting/Triangle.java:16-21 | the stored normal of every triangle is orthogonal to its three edges |
| Triangle.ReversedOrientation | src/robprakt/cutting/Triangle.java:16-21 | reversing the vertex order negates the edge normal |
| Triangle.CyclicOrientation | src/robprakt/cutting/Triangle.java:16-21 | a cyclic rotation of the vertices keeps the edge normal |
| Triangle.ReversedNormal | src/robprakt/cutting/Triangle.java:16-21 | the reversed triangle can be made and its stored normal is the negated one |
| Triangle.Collinear | src/robprakt/cutting/Triangle.java:16-21 | collinear vertices (edges b - a and c - b linearly dependent, in any of the cases) give a zero normal and no triangle |
| Homogeneous.HomParts | src/robprakt/cutting/TransformCoords.java:401-406 | a homogeneous matrix is determined by its block and translation, in both directions |
| Homogeneous.HomMul | src/robprakt/cutting/TransformCoords.java:180 | homogeneous products multiply the blocks and compose the translations |
| Homogeneous.HomApply | src/robprakt/cutting/TransformCoords.java:302 | a homogeneous transform maps (p, 1) to (R·p + t, 1) |
| Homogeneous.InvertRigidCorrect | src/robprakt/cutting/TransformCoords.java:398-408 | for a homogeneous H with invertible block the rigid inverse is a two-sided inverse |
| Homogeneous.UndoAfterApply | src/robprakt/cutting/TransformCoords.java:398-408 | moving a point by H and then by its inverse leaves it in place |
| Homogeneous.ApplyAfterUndo | src/robprakt/cutting/TransformCoords.java:398-408 | moving a point by the inverse and then by H leaves it in place |
| Homogeneous.MulHomogeneous | src/robprakt/cutting/TransformCoords.java:180 | rigid transforms compose to a rigid transform |
| Homogeneous.InvertRigidOfProduct | src/robprakt/cutting/TransformCoords.java:398-408 | the rigid inverse of a product of rigid transforms with invertible blocks exists and is the product of their inverses in reverse order |
| Homogeneous.CancelInverse | src/robprakt/cutting/TransformCoords.java:196-212 | undoing a rigid transform and redoing it leaves a pure translation in place |
| Linear.InverseCorrect | src/robprakt/cutting/TransformCoords.java:399 | the adjugate over the determinant is a two-sided inverse of an invertible 3x3 matrix |
| Linear.Adjugate | src/robprakt/cutting/TransformCoords.java:399 | a matrix times its adjugate is the determinant times the identity, on both sides |
| Linear.DetMul | src/robprakt/cutting/TransformCoords.java:399 | the determinant of a product is the product of the determinants |
| Linear.InverseOfProduct | src/robprakt/cutting/TransformCoords.java:399 | a product of invertible matrices is invertible, and its inverse is the product of the inverses in reverse order |
| Linear.UndoTurn | src/robCalibration/testDataGenerator.java:318-331 | turning by the inverse of an invertible matrix and then by the matrix is no turn |
| TransformCoords.CreateInversTransformationMatrix | src/robprakt/cutting/TransformCoords.java:398-408 | fails exactly when the block is singular; otherwise the result is homogeneous with block R⁻¹ and translation -R⁻¹·t, and for a homogeneous input it is a two-sided inverse |
| TransformCoords.ConstructedFrames | src/robprakt/cutting/TransformCoords.java:187-223 | both default poses coincide and are homogeneous, and endeffectorToWorkspace is the identity |
| TransformCoords.WorkspaceFromCutterRobot | src/robprakt/cutting/TransformCoords.java:176-213 | for a rigid calibration the workspace seen from the cutter robot is the identity turn at the initial workspace position |
| TransformCoords.WorkspacePointFromCutterRobot | src/robprakt/cutting/TransformCoords.java:176-213 | so a point x of the workspace lies, seen from the cutter robot, at x plus the initial workspace position |
| TransformCoords.AddVectors | src/robprakt/cutting/TransformCoords.java:295 | ArrayRealVector.add keeps the dimension and refuses vectors of different sizes |
| TransformCoords.AsWrittenNeverSucceeds | src/robprakt/cutting/TransformCoords.java:288-313 | as written the trajectory matrix is never produced: the dimension check fails on every input |
| TransformCoords.TrajectoryReachesTarget | src/robprakt/cutting/TransformCoords.java:288-313 | the corrected pose has the standard tool orientation and a homogeneous bottom row; its end effector sits at the target minus the offset turned by the current pose |
| TransformCoords.ToolTipAtTarget | src/robprakt/cutting/TransformCoords.java:288-313 | when the robot already holds the standard orientation, the pose puts the tool tip exactly on the target point |
| TransformCoords.PoseFromJoinedReply | src/robprakt/cutting/TransformCoords.java:361-388 | a reply of the twelve entries of a homogeneous pose, row by row, is read back as that pose |
| TransformCoords.FromItsRows | src/robprakt/cutting/TransformCoords.java:386-387 | a homogeneous pose is rebuilt from its first three rows |
| TransformCoords.GetHomRealMatrix | src/robprakt/cutting/TransformCoords.java:361-388 | the nested row/column loops compute exactly PoseFromReply: entries in row-major order, zeros after a non-number, an index error for a missing token |
| TransformCoords.FillRow | src/robprakt/cutting/TransformCoords.java:377-379 | one row is filled with the parsed tokens, or reading stops at a non-number or a missing token |
| TransformCoords.ReplyRead | src/robprakt/cutting/TransformCoords.java:371-387 | reading that stops at entry 12 or at a non-number gives the values read, padded with zeros |
| TransformCoords.ReplyFails | src/robprakt/cutting/TransformCoords.java:371-385 | a reply with too few tokens fails at the first missing one |
| TransformCoords.StoreCell | src/robprakt/cutting/TransformCoords.java:378 | storing one cell changes exactly that entry |
| TransformCoords.FromRowMajorUpdate | src/robprakt/cutting/TransformCoords.java:378 | writing the row-major entry 4·row + col is writing entry (row, col) |
| TransformCoords.StoredStep | src/robprakt/cutting/TransformCoords.java:378 | storing the next value keeps the rows equal to the values read, padded with zeros |
| TransformCoords.TransformCoords.Init | src/robprakt/cutting/TransformCoords.java:163-164 | the object keeps the two clients |
| TransformCoords.TransformCoords.Create | src/robprakt/cutting/TransformCoords.java:158-169 | the constructor fails on a missing client, a missing workspace position or a singular block, with the first exception; otherwise its four transforms are those of Construct |
| TransformCoords.TransformCoords.CalcCutterRobotToHolderRobot | src/robprakt/cutting/TransformCoords.java:176-181 | C·H⁻¹ is stored, or the null/singular failure is returned and nothing changes |
| TransformCoords.TransformCoords.CalcDefaultPoseHoldersEndeffector | src/robprakt/cutting/TransformCoords.java:187-197 | the holder's default pose relative to the holder robot is stored, or the failure returned |
| TransformCoords.TransformCoords.CalcDefaultPoseWorkspace | src/robprakt/cutting/TransformCoords.java:203-213 | the workspace's default pose relative to the holder robot is stored, or the failure returned |
| TransformCoords.TransformCoords.CalcEndeffectorToWorkspace | src/robprakt/cutting/TransformCoords.java:220-223 | the inverse default pose times the workspace pose is stored, or the failure returned |
| TransformCoords.TransformCoords.TransformPosCutterToHolderRobot | src/robprakt/cutting/TransformCoords.java:277-279 | fails exactly for a singular block; the result mapped back by cutterRobotToHolderRobot is the point again |
| TransformCoords.TransformCoords.GetTrajectoryMatrixForCuttersEndeffector | src/robprakt/cutting/TransformCoords.java:288-313 | the imperative construction equals the corrected TrajectoryPose |
| RobotMovement.StepsLeast | src/robprakt/cutting/RobotMovement.java:202-209 | the number of loop rounds is the least count of steps whose length covers the distance |
| RobotMovement.StepsUnique | src/robprakt/cutting/RobotMovement.java:202-209 | any count that covers the distance, and would not without its last step, is that number |
| RobotMovement.StepsFloor | src/robprakt/cutting/RobotMovement.java:202-209 | for a positive distance, floor(distance / step) steps fall short of the distance or just reach it, and one more step passes it |
| RobotMovement.AlongScaled | src/robprakt/cutting/RobotMovement.java:203-206 | the point j steps along is the start moved by j step vectors |
| RobotMovement.WalkAt | src/robprakt/cutting/RobotMovement.java:203-206 | the j-th walked point is j steps along |
| RobotMovement.TrajectoryShape | src/robprakt/cutting/RobotMovement.java:198-213 | when the loop runs, the trajectory starts with the start point twice; consecutive inner points differ by one step vector, and it ends with the end point |
| RobotMovement.TrajectoryOfNoDistance | src/robprakt/cutting/RobotMovement.java:188-213 | equal start and end give just [start, end] |
| RobotMovement.TrajectoryOnSegment | src/robprakt/cutting/RobotMovement.java:188-213 | every inner point lies on the segment from start to end, at fraction j·step/distance in [0, 1) |
| RobotMovement.StepLength | src/robprakt/cutting/RobotMovement.java:192-195 | for a positive distance each step vector is exactly one quantization step long |
| RobotMovement.StepVectorScaled | src/robprakt/cutting/RobotMovement.java:194-195 | the step vector is the direction scaled by step / distance |
| RobotMovement.Shown | src/robprakt/cutting/RobotMovement.java:238-240 | each entry of the command is the string of the matching pose entry |
| RobotMovement.MoveCommandIsJoin | src/robprakt/cutting/RobotMovement.java:238-241 | the command string is its words joined by single spaces |
| RobotMovement.SplitJoinWords | src/robprakt/cutting/RobotMovement.java:238-241 | splitting the command gives exactly its 15 words |
| RobotMovement.MoveCommandTokens | src/robprakt/cutting/RobotMovement.java:238-241 | word 0 is the command name, words 1-12 parse to the rows of the pose, row by row, and words 13-14 are the configuration flags |
| RobotMovement.MoveCommandPose | src/robprakt/cutting/RobotMovement.java:238-241 | the twelve entry words, read as a pose reply, give the pose back |
| RobotMovement.RepeatAt | src/robprakt/cutting/RobotMovement.java:246 | every logged client of a handler run is that handler's client |
| RobotMovement.HandlerCommandsAt | src/robprakt/cutting/RobotMovement.java:131-135 | the j-th command moves to the j-th point with the fixed orientation |
| RobotMovement.HandlerCommandCarriesPoint | src/robprakt/cutting/RobotMovement.java:129-133 | the j-th command carries the j-th point in words 4, 8 and 12, and the rows of the orientation in words 1-3, 5-7 and 9-11 |
| RobotMovement.WalkToDistance | src/robprakt/cutting/RobotMovement.java:198-209 | the while loop returns the start followed by Steps(distance, step) points along the line |
| RobotMovement.MaxDeviation | src/robprakt/cutting/RobotMovement.java:164-175 | the result bounds the absolute value of every entry of the 3x4 matrix and equals one of them |
| RobotMovement.CommandLog.constructor | src/robprakt/cutting/RobotMovement.java:42-43 | both static lists start empty |
| RobotMovement.RobotMovement.constructor | src/robprakt/cutting/RobotMovement.java:56-59 | the quantization step starts at 20 and no position is set |
| RobotMovement.RobotMovement.SetQuantizationStep | src/robprakt/cutting/RobotMovement.java:222-225 | the step is taken exactly when it lies in (1, 100); otherwise IllegalArgumentException and nothing changes |
| RobotMovement.RobotMovement.SetNeutralPosition | src/robprakt/cutting/RobotMovement.java:68-70 | the neutral position becomes column 3 of the trajectory pose, or the pose's failure is returned |
| RobotMovement.RobotMovement.SetAuxiliaryPosition | src/robprakt/cutting/RobotMovement.java:79-81 | the same for the auxiliary position |
| RobotMovement.RobotMovement.CalcP2PTrajectoryForStraight | src/robprakt/cutting/RobotMovement.java:188-214 | the points are exactly P2PTrajectory for the current step |
| RobotMovement.RobotMovement.MoveMinChange | src/robprakt/cutting/RobotMovement.java:237-251 | exactly one command and its client are logged, so the two lists stay in lockstep, and the result is true iff the trimmed reply is "true" |
| RobotMovement.RobotMovement.MovementHandler | src/robprakt/cutting/RobotMovement.java:123-136 | one command per point, in order, with the orientation chosen by the client, and the client logged once per point, keeping the two lists in lockstep |
| RobotMovement.RobotMovement.MoveCutterP2P | src/robprakt/cutting/RobotMovement.java:91-96 | the commands move the cutter robot along the trajectory between the two converted positions, each logged with R1's client, or nothing is sent or logged on a failure |
| RobotMovement.RobotMovement.MoveToNeutralPosition | src/robprakt/cutting/RobotMovement.java:101-106 | fails with a NullPointerException when no neutral position is set; otherwise the commands follow the trajectory from the current position to it, each logged with R1's client; on failure nothing is logged |
| RobotMovement.RobotMovement.MoveToAuxiliaryPosition | src/robprakt/cutting/RobotMovement.java:111-116 | the same towards the auxiliary position |
| CuttingLogic.NeutralPoint | src/robprakt/cutting/CuttingLogic.java:105-112 | the neutral point is (-300, -300, 513, 1) |
| CuttingLogic.AuxiliaryPoint | src/robprakt/cutting/CuttingLogic.java:122-129 | the auxiliary point is (-300, 300, 513, 1) |
| CuttingLogic.NeutralMirrorsAuxiliary | src/robprakt/cutting/CuttingLogic.java:105-132 | the two points mirror each other in y = 0, lie above holder plus cylinder by the offset, and are outside the cylinder's radius |
| CuttingLogic.Angle2D | src/robprakt/cutting/CuttingLogic.java:215 | Vector2D.angle fails exactly when one vector is zero |
| CuttingLogic.AsWrittenAngleFails | src/robprakt/cutting/CuttingLogic.java:207-218 | as written every normal that is not nearly vertical gets angle 0, and a nearly vertical one makes Vector2D.angle fail exactly when its x and y are both 0; so (0, 0, 1) fails and (1, 0, 0) gets 0 |
| CuttingLogic.RotationAngleDefined | src/robprakt/cutting/CuttingLogic.java:207-218 | with the corrected guard a nearly vertical normal gets 0, and any other normal its angle to the negative y axis |
| CuttingLogic.TurnOrthonormal | src/robprakt/cutting/CuttingLogic.java:220-226 | for cos² + sin² = 1 the rotation block is orthonormal with determinant 1 |
| CuttingLogic.RotationMatrixIsTurn | src/robprakt/cutting/CuttingLogic.java:220-226 | the 4x4 matrix is the turn about x with no translation |
| CuttingLogic.RotationKeepsXAxis | src/robprakt/cutting/CuttingLogic.java:220-226 | points of the x axis stay where they are |
| CuttingLogic.RotationOfNoAngle | src/robprakt/cutting/CuttingLogic.java:220-226 | angle 0 gives the identity |
| CuttingLogic.PoseHolderRobotTurnsInPlace | src/robprakt/cutting/CuttingLogic.java:235-245 | the holder's pose keeps the default position and turns the default block about its own x axis |
| CuttingLogic.PoseHolderRobotUnturned | src/robprakt/cutting/CuttingLogic.java:235-245 | angle 0 leaves the default pose as it is |
| CuttingLogic.HolderPosesAt | src/robprakt/cutting/CuttingLogic.java:150-174 | the i-th pose is the i-th facet's |
| CuttingLogic.PoseCommandsAt | src/robprakt/cutting/CuttingLogic.java:177 | the i-th command moves to the i-th pose |
| CuttingLogic.TriangleCommandsStep | src/robprakt/cutting/CuttingLogic.java:150-181 | one more facet appends the command for its pose |
| CuttingLogic.HolderPosesKeepPosition | src/robprakt/cutting/CuttingLogic.java:235-245 | every facet's pose keeps the default position and stays homogeneous |
| CuttingLogic.StartPoint | src/robprakt/cutting/CuttingLogic.java:273-284 | without a left intersection the start point is a NullPointerException |
| CuttingLogic.EdgeHeights | src/robprakt/cutting/CuttingLogic.java:252-255 | both edges run from z = 43 to z = 443 |
| CuttingLogic.StartPointChoice | src/robprakt/cutting/CuttingLogic.java:273-284 | the start is the left point unless both lie on their edges and the right one is higher; the right one is chosen only then |
| CuttingLogic.Intersection | src/robprakt/cutting/CuttingLogic.java:268-269 | Plane.intersection gives no point exactly when the line runs parallel to the plane |
| CuttingLogic.IntersectionOnBoth | src/robprakt/cutting/CuttingLogic.java:259-269 | the intersection lies in the plane and on the line |
| CuttingLogic.IntersectionUnique | src/robprakt/cutting/CuttingLogic.java:259-269 | any point of a non-parallel line that lies in the plane is the intersection |
| CuttingLogic.EdgesVertical | src/robprakt/cutting/CuttingLogic.java:252-269 | a facet's plane misses the left and the right edge exactly when its normal's z is 0 |
| CuttingLogic.FirstCutStart | src/robprakt/cutting/CuttingLogic.java:247-284 | no vertex is an index error, a zero normal defines no plane, and a facet whose normal has z = 0 makes line 278 throw a NullPointerException |
| CuttingLogic.FirstCutStartInPlane | src/robprakt/cutting/CuttingLogic.java:247-284 | a facet with vertices and a normal with z ≠ 0 has a start point; it is one of the two intersections and lies in the facet's plane |
| CuttingLogic.FirstFailingFacet | src/robprakt/cutting/CuttingLogic.java:150-181 | the loop's first failing facet: every facet before it has a start point, and it has none |
| CuttingLogic.FacetsSent | src/robprakt/cutting/CuttingLogic.java:150-181 | the loop sends poses up to and including the first failing facet, or for all facets |
| CuttingLogic.FirstFailingFacetStep | src/robprakt/cutting/CuttingLogic.java:150-181 | walking the facets in order, a passing one moves the first failure on, and a failing one is it |
| CuttingLogic.CuttingLogic.constructor | src/robprakt/cutting/CuttingLogic.java:93-95 | the robot movement is kept, no cut is active and no facets are set |
| CuttingLogic.CuttingLogic.Create | src/robprakt/cutting/CuttingLogic.java:93-98 | a new object whose robot movement gets the neutral and the auxiliary position; it fails exactly when one of the two trajectory poses fails, with the first error |
| CuttingLogic.CuttingLogic.SetNeutralPosition | src/robprakt/cutting/CuttingLogic.java:105-115 | the robot movement's neutral position is set from the neutral point |
| CuttingLogic.CuttingLogic.SetAuxiliaryPosition | src/robprakt/cutting/CuttingLogic.java:122-132 | the robot movement's auxiliary position is set from the auxiliary point |
| CuttingLogic.CuttingLogic.MoveHolderRobotToDefaultPose | src/robprakt/cutting/CuttingLogic.java:201-204 | one command to the default pose for R2; a refused move throws |
| CuttingLogic.CuttingLogic.TurnForTriangle | src/robprakt/cutting/CuttingLogic.java:167-180 | one facet sends exactly the command for its holder pose to R2, then fails exactly when its first cut has no start point, with that exception |
| CuttingLogic.CuttingLogic.TurnForTriangles | src/robprakt/cutting/CuttingLogic.java:150-181 | the loop sends one command per facet, in order, all to R2, up to and including the first facet without a start point; it succeeds exactly when there is no such facet, and otherwise fails with that facet's exception |
| CuttingLogic.CuttingLogic.Cut | src/robprakt/cutting/CuttingLogic.java:141-185 | cut succeeds exactly when the default pose is accepted, a neutral position is set, facets exist and each has a start point for its first cut; otherwise it fails with the first exception; the flag stays set exactly on failure; the whole log is stated on every path: the default pose for R2; then, if it is accepted and a neutral position is set, the way to the neutral position for R1; then, if facets exist, one pose for R2 per facet up to and including the first failing one |
| TestDataGenerator.CreateHomMatrix | src/robCalibration/testDataGenerator.java:375-383 | rot is the upper-left block, pos the translation, and the bottom row is [0, 0, 0, 1] |
| TestDataGenerator.CreateHomVector | src/robCalibration/testDataGenerator.java:390-393 | the result is (v0, v1, v2, 1) |
| TestDataGenerator.HomMatrixRoundTrip | src/robCalibration/testDataGenerator.java:375-383 | a matrix is homogeneous iff rebuilding it from its block and translation gives it back, and the builder's parts are its inputs |
| TestDataGenerator.HomVectorRoundTrip | src/robCalibration/testDataGenerator.java:390-393 | a vector ends in 1 iff it is the homogeneous vector of its first three entries |
| TestDataGenerator.CreateXMatrix | src/robCalibration/testDataGenerator.java:215-224 | X has the identity block and the marker offset as translation |
| TestDataGenerator.XMovesByOffset | src/robCalibration/testDataGenerator.java:215-224 | X moves every point by the marker offset without turning it |
| TestDataGenerator.CreateYMatrix | src/robCalibration/testDataGenerator.java:234-242 | Y has trackingOrientation as block and trackingPosition as translation |
| TestDataGenerator.TrackingOrientationProper | src/robCalibration/testDataGenerator.java:48-49 | the fixed tracking orientation is orthonormal with determinant 1, so the tracking system is right-handed, and it is its own inverse |
| TestDataGenerator.GenRandomPosition | src/robCalibration/testDataGenerator.java:286-291 | for a positive trackingPosition each coordinate lies in [0, trackingPosition_i) |
| TestDataGenerator.RandomPositionOnto | src/robCalibration/testDataGenerator.java:286-291 | every position of that box comes from some draws |
| TestDataGenerator.MMatrix | src/robCalibration/testDataGenerator.java:252-262 | M is homogeneous, its block is the extrinsic rotation of the drawn angles, and its translation lies in the box |
| TestDataGenerator.FixedPositionBox | src/robCalibration/testDataGenerator.java:286-291 | with trackingPosition (10, 20, 30) the end effector lies in [0, 10) x [0, 20) x [0, 30) |
| TestDataGenerator.EulerOfNoAngle | src/robCalibration/testDataGenerator.java:269-277 | three zero angles give the identity turn |
| TestDataGenerator.RobotToTracking | src/robCalibration/testDataGenerator.java:361-363 | fails exactly for a singular Y; Y maps the result of a point back onto the point |
| TestDataGenerator.MarkerInRobot | src/robCalibration/testDataGenerator.java:351-353 | for a homogeneous M the marker is M's block times the offset plus M's translation |
| TestDataGenerator.GenPosVecOfN | src/robCalibration/testDataGenerator.java:339-343 | fails exactly for a singular Y; otherwise Y·(t, 1) = M·(offset, 1), the translation half of M·X = Y·N |
| TestDataGenerator.ConvertedAxis | src/robCalibration/testDataGenerator.java:322-323 | converting one axis fails exactly for a singular Y |
| TestDataGenerator.GenRotMatOfN | src/robCalibration/testDataGenerator.java:318-331 | the rotation of N fails exactly for a singular Y |
| TestDataGenerator.CreateNMatrix | src/robCalibration/testDataGenerator.java:302-307 | N fails exactly for a singular Y; otherwise it is homogeneous and Y maps its translation onto M·(offset, 1) |
| TestDataGenerator.ConvertedAxisTurns | src/robCalibration/testDataGenerator.java:322-327 | moving an axis by trackingPosition and converting it with Y only turns it by Y's inverted block |
| TestDataGenerator.RotMatOfNTurns | src/robCalibration/testDataGenerator.java:318-331 | the rotation of N is Y's inverted block times the end effector's orientation |
| TestDataGenerator.MeasuredN | src/robCalibration/testDataGenerator.java:302-307 | with an invertible Y, createNMatrix never fails and its N is homogeneous |
| TestDataGenerator.MeasuredSolvesCalibration | src/robCalibration/testDataGenerator.java:302-363 | M·X = Y·N holds exactly before noise, for every invertible tracking orientation, tracking position and marker offset |
| TestDataGenerator.RotationalNoise | src/robCalibration/testDataGenerator.java:179-192 | the block is turned by the noise rotation; the translation and the bottom row stay |
| TestDataGenerator.TranslationalNoise | src/robCalibration/testDataGenerator.java:199-206 | each translation entry moves by an amount in (-1, 1] and no other entry changes |
| TestDataGenerator.TranslationalNoiseOnto | src/robCalibration/testDataGenerator.java:199-206 | every shift in (-1, 1]³ comes from some draws |
| TestDataGenerator.AddNoise | src/robCalibration/testDataGenerator.java:167-172 | noise keeps N homogeneous and its translation within (-1, 1] of the exact one |
| TestDataGenerator.NoiseTurnsBlock | src/robCalibration/testDataGenerator.java:179-206 | the noisy block is the noise rotation times the exact block, and each translation entry is shifted by 1 - 2r |
| TestDataGenerator.IdentityTurn | src/robCalibration/testDataGenerator.java:189 | a noise rotation that is the identity changes nothing |
| TestDataGenerator.NoTurn | src/robCalibration/testDataGenerator.java:179-192 | rotational noise by three zero angles leaves N as it was |
| TestDataGenerator.NoNoise | src/robCalibration/testDataGenerator.java:167-206 | zero angles and the draws 0.5 leave N exact |
| TestDataGenerator.Noisy | src/robCalibration/testDataGenerator.java:167-172 | noise on a list keeps its length |
| TestDataGenerator.NoisyClose | src/robCalibration/testDataGenerator.java:167-172 | every noisy N stays homogeneous and within (-1, 1] of its exact translation |
| TestDataGenerator.Copies | src/robCalibration/testDataGenerator.java:152-159 | the X and Y lists hold count copies of the fixed matrix |
| TestDataGenerator.GeneratedSolveCalibration | src/robCalibration/testDataGenerator.java:132-162 | every generated M and its exact N solve M·X = Y·N |
| TestDataGenerator.MsStep | src/robCalibration/testDataGenerator.java:152-161 | one more measurement appends its M |
| TestDataGenerator.NsStep | src/robCalibration/testDataGenerator.java:152-161 | one more measurement appends its N |
| TestDataGenerator.CopiesStep | src/robCalibration/testDataGenerator.java:152-161 | one more measurement appends one more X and Y |
| TestDataGenerator.TestDataGenerator.constructor | src/robCalibration/testDataGenerator.java:42-108 | the lists start empty; trackingPosition is (10, 20, 30), trackingOrientation is the fixed turn, and the marker offset is (10, 10, 10) |
| TestDataGenerator.TestDataGenerator.CreateMMatrix | src/robCalibration/testDataGenerator.java:252-262 | M is returned and its turn and position are kept in the fields; the lists stay |
| TestDataGenerator.TestDataGenerator.AddMeasurement | src/robCalibration/testDataGenerator.java:152-162 | exactly one matrix is appended to each of the four lists: M, the fixed X, the fixed Y and M's exact N; the lists stay in lockstep |
| TestDataGenerator.TestDataGenerator.CreateNoise | src/robCalibration/testDataGenerator.java:167-172 | every N of the list, in place, becomes its noisy version; the other lists stay |
| TestDataGenerator.TestDataGenerator.AddMeasurements | src/robCalibration/testDataGenerator.java:135-137 | the counting loop appends max(n, 0) measurements |
| TestDataGenerator.TestDataGenerator.GenerateTestData | src/robCalibration/testDataGenerator.java:132-147 | the result is [M, X, Y, N]; max(n, 0) measurements are appended; every X and Y is fixed; N is the noisy list of the exact N |

## Left out

- I/O:
  - the TCP connections and their `send`/`receiveData` calls;
  - `System.out` messages;
  - the GUI (menus, panes, frames, controller, `Main`);
  - the `main` of TransformCoords.
- The robots' replies are parameters: the pose reply string, the per-command reply function and the current pose of the cutter robot. The measuring calls that read them (`measureCutterRobotPose`, `measureHolderRobotPose`) are not modelled separately.
- `comparePoses` (src/robprakt/cutting/RobotMovement.java:145-157) is left out. It polls the robot until the deviation falls below 0.1, an unbounded exchange. Only its `maxDeviation` is modelled.
- `src/robCalibration/QR24.java` does not compile and calls methods that do not exist, so it is not part of this model.
- `ConsoleTableTester` is not part of this model.
- Floating point is modelled as exact `real` arithmetic. Rounding, NaN and infinities are not modelled.
- These library calls are parameters:
  - `Math.sin`/`Math.cos`;
  - `Vector3D.getNorm` and `normalize`;
  - `Vector2D.angle`;
  - `Double.parseDouble` and `Double.toString`.
- `java.util.Random` is modelled by its draws, values in [0, 1). The angles the draws give are modelled only through their sines and cosines (an `EulerTrig` record). So `rotationalNoise`'s bound of half a degree either way and the range [0, 2π) of `genRandomRightHandCoordsSystem` are not modelled.
- `calculateVerticesFirstCut` after line 284 (src/robprakt/cutting/CuttingLogic.java:286-301) is not modelled. It compares z with y coordinates and refers to an undeclared `t`, so it does not compile. Only the plane, the edge intersections and the start-point choice of lines 252-284 are modelled.
- CuttingLogic.Intersection: Plane.intersection is computed exactly. The source's tolerance of 1e-10 is not modelled: a line that is nearly parallel to the plane gives a point here but none in the source. Likewise CuttingLogic.FirstCutStart treats only the exact zero normal as one defining no plane.
- The intersection with the top edge (src/robprakt/cutting/CuttingLogic.java:270) is read only in lines 286-301, which are not modelled (see above), so it is not modelled either.
- CuttingLogic.FirstCutStart therefore ignores the null dereferences of lines 286-301. The top edge runs along y, so a facet whose normal has y = 0 gets no top intersection, and line 286 would read it. For such facets the model gives a start point and the cut goes on, while the source would throw a NullPointerException (were those lines compilable).
- CuttingLogic.HolderPose uses the corrected guard of the Findings table. So, unlike the source, a normal that is not nearly vertical is turned by its angle to the negative y axis instead of 0. The MathArithmeticException of line 215 for a normal pointing exactly along z (x = y = 0) is not modelled.
- CuttingLogic.CuttingLogic.TurnForTriangle: through CuttingLogic.HolderPose it uses the corrected guard, so it never throws the MathArithmeticException of line 215 that the source throws for a normal with x = y = 0.
- CuttingLogic.CuttingLogic.TurnForTriangles: the same corrected guard. No facet fails at line 215; facets fail only at their first cut.
- CuttingLogic.CuttingLogic.Cut: the same corrected guard. A facet with normal x = y = 0 makes the source throw at line 215 before its pose is sent; in the model its pose is sent.
- RobotMovement.RobotMovement.SetNeutralPosition uses the corrected TransformCoords.TrajectoryPose of the Findings table. As written, the source always fails there: a DimensionMismatchException at src/robprakt/cutting/TransformCoords.java:295, or a SingularMatrixException at line 293 for a singular current pose.
- RobotMovement.RobotMovement.SetAuxiliaryPosition uses the corrected TransformCoords.TrajectoryPose, so it succeeds where the source always fails at TransformCoords.java:293 or 295.
- RobotMovement.RobotMovement.MoveCutterP2P uses the corrected TransformCoords.TrajectoryPose for both conversions, so it sends commands where the source always fails at TransformCoords.java:293 or 295 before sending any.
- CuttingLogic.CuttingLogic.Create uses the corrected TransformCoords.TrajectoryPose through CuttingLogic.CuttingLogic.SetNeutralPosition and CuttingLogic.CuttingLogic.SetAuxiliaryPosition. As written, the Java constructor always throws at TransformCoords.java:293 or 295. It also takes one current pose for both positions, where the source measures the cutter robot once per position.
- CuttingLogic.CuttingLogic.SetNeutralPosition uses the corrected TransformCoords.TrajectoryPose, so it succeeds where the source always fails at TransformCoords.java:293 or 295.
- CuttingLogic.CuttingLogic.SetAuxiliaryPosition uses the corrected TransformCoords.TrajectoryPose, so it succeeds where the source always fails at TransformCoords.java:293 or 295.
- TCPClient.isEqual is modelled as equality of client identities.
- RobotMovement.StepVector: for a zero distance the Java division gives NaN. The model uses the zero vector; the trajectory loop never runs in that case.
- RobotMovement.RobotMovement.MoveCutterP2P: both conversions use one current pose of the cutter robot. The source measures the pose once per conversion.
- CuttingLogic.CuttingLogic.Create takes a robot movement that is already built. The TransformCoords and RobotMovement objects the Java constructor creates come from TransformCoords.TransformCoords.Create and RobotMovement.RobotMovement.constructor.
- CuttingLogic's static `isCuttingActive` is a field of the one `CuttingLogic` object.
- `CuttingLogic.triangles` is never assigned in the source, so `cut` throws a NullPointerException. It is modelled as an `Option` that starts `None`.
- Triangle.GetVertices returns the vertex sequence by value. The Java array aliasing is not modelled.
- The loop helpers stand for the loops in the source's own methods:
  - TransformCoords.FillRow and TransformCoords.StoreCell;
  - RobotMovement.WalkToDistance;
  - CuttingLogic.CuttingLogic.TurnForTriangle and CuttingLogic.CuttingLogic.TurnForTriangles;
  - TestDataGenerator.TestDataGenerator.AddMeasurements.
- testDataGenerator's unused fields are left out: `robotPosition`, `robotOrientation`, `markerPosition`, `markerOrientation` and `robotToTrackingTransformationMatrix`. No method reads them.
- TestDataGenerator.RobotToTracking: `MatrixUtils.inverse` of the whole 4x4 Y is modelled by the rigid inverse. That equals the general inverse for a homogeneous Y, which is the only kind createYMatrix builds. So the function requires a homogeneous Y.
- TestDataGenerator.TestDataGenerator.GenerateTestData returns the values of the four lists at the time of the call. Java's `measurementList` holds the field lists themselves, so a later call also changes a list already returned. That aliasing is not modelled.
- The Java lists in testDataGenerator hold references to mutable matrices, and `createNoise` changes them through those references. The model changes the values in `listN` instead. The aliasing is not modelled.
- TestDataGenerator.TestDataGenerator.GenerateTestData: as in the source, the noise goes on every N in the list. On a second call this includes the N of earlier calls.
- That the extrinsic rotation factors into turns about z, y and x is not proved.
- The final fields of testDataGenerator are class constants. The constructor fixes their values, and the functions take them as parameters.

## Findings

| source | as written | input that shows it | evidently intended | confidence | as-written member | corrected member |
|---|---|---|---|---|---|---|
| src/robprakt/cutting/TransformCoords.java:295 | the negated tool offset, a 3-vector, is added to the 4-vector inv(currentPose)·position, so ArrayRealVector.add throws DimensionMismatchException | any target point with an invertible current pose | subtract the offset from the first three entries of that vector | not executed | TransformCoords.AsWrittenNeverSucceeds | TransformCoords.TrajectoryReachesTarget |
| src/robprakt/cutting/CuttingLogic.java:211 | the angle is computed only when the normal IS parallel to z, where its projection is the zero vector and Vector2D.angle throws | a facet with normal (0, 0, 1) | compute the angle when the normal is not parallel to z, and return 0 when it is | not executed | CuttingLogic.AsWrittenAngleFails | CuttingLogic.RotationAngleDefined |
