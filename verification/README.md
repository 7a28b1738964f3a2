# Pick-and-sort cell: a verified Dafny model

This project models the core of a small robotic sorting cell, written as Dafny and proved with Dafny's verifier.
- A conveyor belt carries objects under a camera.
- Two image classifiers name each object's shape and colour.
- A control loop waits until the same answer has been seen three times in a row. It then stops the belt and looks up the first rule for that shape and colour.
- The rule's recorded movement is replayed on a six-servo arm, line by line.
- The belt is then restarted, the work area cleared, and emptiness checked on five frames.

Around the loop, the model also covers:
- the two serial device drivers (belt and arm);
- the label composer that turns classifier output into the loop's `"id name_prefix colour"` answer;
- the closed-form inverse kinematics, in both its Python and its browser (JavaScript) versions;
- the Denavit–Hartenberg forward kinematics;
- the linear and multi-kind trajectory generators;
- the reader of `"<int> <name>"` label files.

One Dafny module per source file:

| module | file | form |
|---|---|---|
| `Serial` | the shared serial port the drivers write to | class |
| `Conveyor` | `modulos/banda_transportadora.py` | class `Belt` |
| `Arm` | `modulos/brazo_robotico.py` | class `RobotArm` + command functions |
| `Execution` | `modulos/ejecucion.py` | methods with loops over an event trace, functions, lemmas |
| `Recognition` | `modulos/reconocimiento.py` | functions, loop methods, lemmas |
| `InverseKinematics` | `modulos/cinematica_inversa.py` | functions, lemmas |
| `BrowserKinematics` | `static/js/kinematics.js` | functions, lemmas |
| `ForwardKinematics` | `modulos/cinematica_directa.py` | loop method over 4x4 matrices, lemmas |
| `Trajectories` | `modulos/trayectorias.py` | loop method, lemmas |
| `TrajectoryGenerator` | `modulos/generador_trayectoria.py` | functions, loop method, lemmas |
| `NodeRed` | `modulos/node_red.py` (`read_labels`) | loop method against a reference function |
| `Text`, `RealMath`, `Wrappers` | Python string/number built-ins, math, Option/Result | helpers |

How the outside world is represented:
- **Transcendental functions** (`sin`, `cos`, `atan2`, `acos`, `asin`, `sqrt`) are fields of a `Math` record passed as a parameter. The ghost predicate `RealMath.Sound` states the only facts the proofs use about them: cos² + sin² = 1, and `sqrt` is the non-negative square root. Floating-point numbers are reals.
- **The control loop** works over abstract inputs:
  - the classifier's answers for successive camera reads (`frames`);
  - the rule file (`logic`, or `None` when reading it fails);
  - the movement files on disk (`movements`);
  - the stop flag, modelled as an oracle: the k-th read of it sees it set exactly when `k >= stopAt`.

  What the loop does to the belt, the arm and the clock is returned as a trace of `Event`s.
  The loop's meaning is the function `LoopPhases`: the phases of the loop run pass after pass by `NextPass`, one `Wait` or one object acted on (`Handle`) per pass that does something. `DetectionLoop` is proved to send exactly the events of those phases. Separate lemmas prove what the phases are: every object acted on was seen three times in a row and has a matching rule; a firing debounce acts on the object; an empty belt is only polled.

## Model

| member | source | states |
|---|---|---|
| `Conveyor.Belt.constructor` | modulos/banda_transportadora.py:5-10 | no connection yet; port, baud rate and timeout stored as given |
| `Conveyor.Belt.SetConnection` | modulos/banda_transportadora.py:12-18 | the connection is the one given; the other settings are unchanged |
| `Conveyor.Belt.CloseConnection` | modulos/banda_transportadora.py:35-43 | an existing connection ends closed, with nothing written; a missing one is left alone |
| `Conveyor.Emission` | modulos/banda_transportadora.py:46-58 | what one command puts on the wire: the command plus one newline when the port is open and the write succeeds, nothing otherwise |
| `Conveyor.Belt.SendCommand` | modulos/banda_transportadora.py:46-58 | the port's log grows by exactly `Emission(...)`; open/faulty state unchanged; a write error is swallowed |
| `Conveyor.Belt.Activate` | modulos/banda_transportadora.py:60-62 | sends exactly "P\n" (when open) and nothing else |
| `Conveyor.Belt.Deactivate` | modulos/banda_transportadora.py:64-66 | sends exactly "S\n" (when open) and nothing else |
| `Conveyor.Belt.TurnRight` | modulos/banda_transportadora.py:68-70 | sends exactly "D\n" (when open) and nothing else |
| `Conveyor.Belt.TurnLeft` | modulos/banda_transportadora.py:72-74 | sends exactly "I\n" (when open) and nothing else |
| `Conveyor.CommandsDistinct` | modulos/banda_transportadora.py:60-74 | the four commands are pairwise distinct one-letter codes |
| `Arm.SpeedCommand` | modulos/brazo_robotico.py:36 | starts with "V," and ends with a newline |
| `Arm.ServoCommand` | modulos/brazo_robotico.py:41 | only digits, minus signs, a comma and a final newline |
| `Arm.ServoCommandRoundTrip` | modulos/brazo_robotico.py:41-42 | splitting the servo command at its comma and parsing both halves gives back servo number and angle |
| `Arm.SpeedCommandRoundTrip` | modulos/brazo_robotico.py:36-37 | parsing the text between "V," and the newline gives back the speed |
| `Arm.RobotArm.constructor` | modulos/brazo_robotico.py:7-12 | no connection yet |
| `Arm.RobotArm.SetConnection` | modulos/brazo_robotico.py:14-20 | the connection is the one given |
| `Arm.RobotArm.MoveServo` | modulos/brazo_robotico.py:22-45 | nothing written without an open connection; otherwise the speed command then the servo command, in that order; a failing write raises and nothing more is written |
| `Execution.MaxDelta` | modulos/ejecucion.py:43-44 | the result is the travel of some target servo and no target travels further |
| `Execution.MoveDurationCovers` | modulos/ejecucion.py:38-47 | zero for non-positive speed or no targets; otherwise at least the buffer, enough for every servo's travel at the effective speed, and exactly enough for the slowest |
| `Execution.MoveDurationMonotone` | modulos/ejecucion.py:43-47 | a larger largest travel never yields a shorter duration |
| `Execution.JointTargets` | modulos/ejecucion.py:84 | the six servo angles keyed 1..6 in order |
| `Execution.AcceptedLines` | modulos/ejecucion.py:75-95 | never more lines than were read; every kept line has six angles |
| `Execution.AcceptedLinesMembers` | modulos/ejecucion.py:75-95 | a line is played iff it is among the lines read and well-formed with six angles |
| `Execution.AcceptedLinesOrder` | modulos/ejecucion.py:70-95 | lines are played in file order: the t-th line played is the line at the t-th accepted position, the positions strictly increase, and no accepted position among the lines read is missing |
| `Execution.Steps` | modulos/ejecucion.py:84-91 | two events per accepted line |
| `Execution.StepsShape` | modulos/ejecucion.py:84-91 | each accepted line gives one move to its targets, then a wait of max(estimated duration from the arm's previous targets, 0.1 s); only moves and waits |
| `Execution.StepsAt` | modulos/ejecucion.py:84-91 | event 2j of the played steps is the move of accepted line j and event 2j+1 the wait after it |
| `Execution.StepsSnoc` | modulos/ejecucion.py:84-91 | playing one more line appends exactly its move and its wait |
| `Execution.SendLine` | modulos/ejecucion.py:75-95 | a malformed line or one without six angles sends nothing and leaves the arm; an accepted one sends exactly what playing that line alone from where the arm stands sends (one move to its targets, then a wait of max(estimated duration, 0.1 s)), and the arm ends at its targets |
| `Execution.PlayLine` | modulos/ejecucion.py:70-95 | playing one more line appends, if it is accepted, what playing that line alone sends from where the earlier lines left the arm, and moves the arm to its targets; a skipped line changes nothing |
| `Execution.Played` | modulos/ejecucion.py:70-73 | the player never gets past the end of the file |
| `Execution.PlayMovement` | modulos/ejecucion.py:54-100 | the events are exactly `Steps` of the accepted lines before the stop flag is first seen set; the arm ends at the last played targets; one flag read per line reached, plus one for the line at which it stops |
| `Execution.ObserveAllCountsRun` | modulos/ejecucion.py:134-151 | from a reset, the debounce counter equals the length of the trailing run of one identical non-empty answer, and the remembered answer is the latest one |
| `Execution.RunReachesThreshold` | modulos/ejecucion.py:142-151 | the counter reaches 3 iff the last three answers are one and the same non-empty answer |
| `Execution.FirstMatch` | modulos/ejecucion.py:155 | the index found is the first rule matching both shape and colour; none found iff no rule matches |
| `Execution.SplitPair` | modulos/ejecucion.py:154 | succeeds iff the answer holds exactly one underscore, and then the halves rejoin to the answer |
| `Execution.VerifyEvents` | modulos/ejecucion.py:185-190 | n samples, each followed by a 0.2 s wait |
| `Execution.ClearAndVerify` | modulos/ejecucion.py:174-198 | restart the belt, clear, take five verification samples, pause; the camera stream ends up past the cleared frames and the five samples, or at its end |
| `Execution.MovementOf` | modulos/ejecucion.py:168-172 | the movement of a rule only moves the arm and waits, and never un-reads the flag; a missing file plays nothing |
| `Execution.NextPass` | modulos/ejecucion.py:121-205 | a pass ends the loop iff the flag is seen set or the camera has no frame; otherwise the camera cursor moves forward without passing the end of the stream |
| `Execution.LoopFromDone` | modulos/ejecucion.py:121-125 | once the flag is seen set or the camera read fails, the loop contributes nothing more |
| `Execution.LoopFromUnfold` | modulos/ejecucion.py:121-205 | a pass that goes on contributes its phase, if any, ahead of the phases of the rest of the loop |
| `Execution.LoopFromSound` | modulos/ejecucion.py:134-161 | from any state whose debounce holds the answers read since its last reset, every object acted on was seen three times in a row, has a matching rule (the first) and only its movement moves the arm |
| `Execution.LoopSound` | modulos/ejecucion.py:121-205 | the same for the whole loop; the loop does nothing when the flag is set at once or there is no frame |
| `Execution.WaitPass` | modulos/ejecucion.py:134-151 | an empty or preliminary answer makes the pass wait once and the loop go on at the next frame with the updated debounce |
| `Execution.FiresHandles` | modulos/ejecucion.py:141-198 | once the debounce fires on an answer with a rule, the pass acts on that object with the rule's movement played from where the arm stands, and the loop goes on past the clearing window and the samples with a clear debounce |
| `Execution.ThreeAgreeing` | modulos/ejecucion.py:141-198 | after a cleared count, three agreeing answers with a rule give two waiting passes and then the object acted on with its first matching rule |
| `Execution.EmptyBeltWaits` | modulos/ejecucion.py:121-140 | on an empty belt the loop waits once per frame until the flag is seen set or the camera stream ends, and never acts |
| `Execution.HandleObject` | modulos/ejecucion.py:163-198 | stop the belt, then the rule's movement, then `AfterMovement`; with the movement file, the movement, the flag reads and the arm after it are exactly what playing the file gives; without it, nothing is played and flag reads and arm are unchanged; the camera stream ends past the clearing window and the samples |
| `Execution.React` | modulos/ejecucion.py:153-198 | once three answers agree: a malformed answer does nothing and keeps the debounce; an answer without a rule does nothing and resets it; a matched answer is acted on with its first matching rule, its movement, flag reads and arm exactly those of playing the rule's movement, and the debounce reset |
| `Execution.Pass` | modulos/ejecucion.py:121-205 | one pass reads the flag, then a frame; the loop ends there iff the flag is seen set or the camera has no frame; otherwise its phase and the next cursor, debounce, flag reads and arm are exactly those of `NextPass`, and its events are those of its phase |
| `Execution.DetectionLoop` | modulos/ejecucion.py:121-205 | the events are exactly those of the phases of `LoopPhases`, the loop run pass after pass from the first frame with a clear debounce (see `LoopSound`, `FiresHandles`, `EmptyBeltWaits`, `LoopCounts`) |
| `Execution.RunExecution` | modulos/ejecucion.py:102-212 | nothing sent without a ready belt; without a rule file, a start and a stop; otherwise a start, exactly the detection loop's events, and a final stop |
| `Execution.FlattenCounts` | modulos/ejecucion.py:163-198 | per handled object, the belt is stopped once and restarted once and five samples are taken; nothing else touches the belt |
| `Execution.LoopCounts` | modulos/ejecucion.py:121-205 | over a whole detection loop, the belt is stopped once and restarted once per object acted on, with five samples each |
| `Execution.PhaseCounts` | modulos/ejecucion.py:163-198 | the same counts for one pass of the loop |
| `Execution.MovementCounts` | modulos/ejecucion.py:75-95 | a played movement never touches the belt nor samples a frame |
| `Execution.VerifyEventsCounts` | modulos/ejecucion.py:185-190 | the verification takes n samples and sends no belt command |
| `Execution.AfterMovementCounts` | modulos/ejecucion.py:174-198 | the tail after a movement restarts the belt once, never stops it, and takes five samples |
| `Execution.StopFlag.constructor` | modulos/ejecucion.py:36 | the flag starts clear |
| `Execution.StopFlag.Request` | modulos/ejecucion.py:49-52 | the flag is set |
| `Recognition.ArgMax` | modulos/reconocimiento.py:45 | the first index of a largest element |
| `Recognition.Predict` | modulos/reconocimiento.py:37-52 | a class only when inference succeeded; it is the first most probable one and reaches the threshold; none iff inference failed or no probability reaches the threshold |
| `Recognition.HsvColour` | modulos/reconocimiento.py:80-87 | "vacio" iff every mask covers less than the ratio of the frame; otherwise the colour with the largest mask, the first on ties |
| `Recognition.DetectColourHsv` | modulos/reconocimiento.py:54-87 | the loop over the colour masks computes `HsvColour` |
| `Recognition.ShapeParts` | modulos/reconocimiento.py:119-124 | id and name split at the first space; the whole label and "desconocido" without a space |
| `Recognition.ColourParts` | modulos/reconocimiento.py:129-134 | split at the first '_' if there is one, else at the first space; none iff neither occurs |
| `Recognition.FirstNaming` | modulos/reconocimiento.py:126-137 | a label found names the detected colour, ignoring case |
| `Recognition.FirstNamingIsFirst` | modulos/reconocimiento.py:126-137 | the label found is the first naming the colour; none found iff none names it |
| `Recognition.FindColourPrefix` | modulos/reconocimiento.py:126-137 | the loop stops at the first colour label naming the detected colour and yields its prefix |
| `Recognition.Recognize` | modulos/reconocimiento.py:89-151 | every path: "vacio_vacio" for no frame, an unconfident or failed prediction, or a label mentioning "vacio"; an error for a class without a label; otherwise shape id and name joined with the HSV colour and its prefix, or else with the predicted colour label's halves, or "0 desconocido" |
| `Recognition.OutputIsNotEmpty` | modulos/reconocimiento.py:139-151 | an object's answer is never "vacio_vacio" |
| `Recognition.OutputSplits` | modulos/reconocimiento.py:141 | with no underscore in the parts, the control loop's split recovers the shape half and the colour half |
| `Recognition.ShapePartsRejoin` | modulos/reconocimiento.py:119-121 | the shape half of the answer rebuilds a shape label that has a space |
| `RealMath.DegreesOfRadians` | modulos/cinematica_inversa.py:103-106 | degrees undo radians and are linear |
| `RealMath.Clamp` | modulos/cinematica_inversa.py:73-77 | the result lies in [-1, 1], equals the input inside it, and saturates outside |
| `RealMath.LinspaceEnds` | modulos/trayectorias.py:20-29 | the samples start at a, end at b, and are evenly spaced |
| `RealMath.SqrtCompare` | modulos/cinematica_inversa.py:61-65 | comparing a square root with a bound is comparing the square |
| `RealMath.HypotCompare` | modulos/cinematica_inversa.py:54-61 | the hypotenuse squares back to the sum of squares and compares with a bound as that sum does |
| `InverseKinematics.CalcAngles` | modulos/cinematica_inversa.py:14-129 | no solution iff the wrist is beyond 18 cm or exactly at the shoulder; otherwise four angles: base 90 + atan2(y, x) in degrees, shoulder 90 − θ2, elbow 90 + θ3 (θ2 = elevation + acos of the clamped shoulder cosine, θ3 = acos of the clamped elbow cosine − π), and wrist + elbow − shoulder == 90 + pitch |
| `InverseKinematics.ElbowMeetsShoulder` | modulos/cinematica_inversa.py:72-85 | on a reach between 2 and 18 cm the two clamped cosines describe one triangle: c·cos β == 10 − 8·cos γ |
| `InverseKinematics.RollAndYawIgnored` | modulos/cinematica_inversa.py:14-31 | roll and yaw do not affect the result |
| `InverseKinematics.ReachTest` | modulos/cinematica_inversa.py:54-65 | the reach test is the same as comparing the squared distance with 18² and with 0 |
| `InverseKinematics.NestedRootCompare` | modulos/cinematica_inversa.py:54-65 | the hypotenuse of (hypotenuse of wx and wy, h) exceeds a bound iff wx² + wy² + h² exceeds its square, and is zero iff that sum is |
| `InverseKinematics.ReachBySquares` | modulos/cinematica_inversa.py:54-61 | reach against any bound is squared reach against the squared bound |
| `InverseKinematics.WristCentreDistance` | modulos/cinematica_inversa.py:35-48 | the wrist centre is exactly the wrist length (3 cm) from the target |
| `InverseKinematics.CosinesInRange` | modulos/cinematica_inversa.py:70-85 | both law-of-cosines values lie in [-1, 1] iff the reach is between 2 and 18 cm, so the clamp only acts on unreachable reaches |
| `BrowserKinematics.JsRound` | static/js/kinematics.js:95-101 | within half a unit of its argument, halves rounding up |
| `BrowserKinematics.SolveIK5Dof` | static/js/kinematics.js:25-110 | five zeros and invalid beyond reach; no angles and invalid outside the triangle; otherwise five angles, valid iff all lie in 0..180, roll passed through rounded, base rounded from 90 + θ1 = 90 + atan2(y, x), shoulder from 90 − θ2 (`Theta2`: elevation of the wrist centre plus the law-of-cosines angle α), elbow from 90 + θ3 (`Theta3`: −(π − β)), wrist from 90 + (pitch − θ2 − θ3), so the three sum to 90 + pitch within rounding |
| `BrowserKinematics.CosAlphaRange` | static/js/kinematics.js:58 | the shoulder cosine lies in [-1, 1] iff 5 ≤ h ≤ 205 |
| `BrowserKinematics.CosBetaRange` | static/js/kinematics.js:59 | the elbow cosine lies in [-1, 1] iff 5 ≤ h ≤ 205 |
| `BrowserKinematics.TriangleGuard` | static/js/kinematics.js:58-62 | inside reach, the triangle guard fires iff h < 5 |
| `BrowserKinematics.Outcome` | static/js/kinematics.js:37-62 | the solver's two failures depend on h alone: five zeros iff h > 205, no angles iff h ≤ 205 and the triangle guard fires |
| `BrowserKinematics.ReachBySquares` | static/js/kinematics.js:37-62 | five zeros iff the squared wrist distance exceeds 205²; no angles iff it is below 5² |
| `ForwardKinematics.DhMatrix` | modulos/cinematica_directa.py:16-26 | bottom row (0,0,0,1); the translation column is (a·cos θ, a·sin θ, d, 1) |
| `ForwardKinematics.DhRotationUnit` | modulos/cinematica_directa.py:16-26 | the three rotation columns are unit vectors |
| `ForwardKinematics.UnitColumns` | modulos/cinematica_directa.py:16-26 | with both (cosine, sine) pairs on the unit circle, the DH rotation columns have length 1 |
| `ForwardKinematics.PoseOf` | modulos/cinematica_directa.py:44-53 | the position is the translation column of the chain |
| `ForwardKinematics.Forward` | modulos/cinematica_directa.py:28-62 | no pose iff fewer than five joint angles; otherwise the pose of the product of the five link matrices, in order |
| `ForwardKinematics.BottomRowPreserved` | modulos/cinematica_directa.py:42 | products of homogeneous transforms are homogeneous |
| `ForwardKinematics.IdentityLeft` | modulos/cinematica_directa.py:33 | starting from the identity changes nothing |
| `ForwardKinematics.ChainHomogeneous` | modulos/cinematica_directa.py:33-42 | every partial chain is a homogeneous transform |
| `ForwardKinematics.ChainReadsPrefix` | modulos/cinematica_directa.py:36-42 | the first n links depend only on the first n angles, so extra angles are ignored |
| `ForwardKinematics.ChainOne` | modulos/cinematica_directa.py:33-42 | the one-link chain is the first link's matrix |
| `ForwardKinematics.ToolOffset` | modulos/cinematica_directa.py:4-10 | the tool point is the fourth frame's origin plus 161.74 along its z axis |
| `Trajectories.GenerateLinear` | modulos/trayectorias.py:4-52 | no trajectory iff some sample is unreachable; otherwise one row per sample: its four IK angles (yaw 0), its roll and its gripper |
| `Trajectories.SampleEnds` | modulos/trayectorias.py:20-29 | the first sample is the start and the last the end |
| `Trajectories.LineEndpoints` | modulos/trayectorias.py:31-50 | the first and last rows are the start's and the end's solutions |
| `Trajectories.EvenSpacing` | modulos/trayectorias.py:26-29 | roll and gripper change by the same amount every step |
| `TrajectoryGenerator.LinearInterpolation` | modulos/generador_trayectoria.py:40-54 | n poses, pose i being the i-th even step from p1 to p2 |
| `TrajectoryGenerator.LinearEndpoints` | modulos/generador_trayectoria.py:40-54 | the path starts at p1 and ends at p2 |
| `TrajectoryGenerator.Arc` | modulos/generador_trayectoria.py:57-82 | n poses |
| `TrajectoryGenerator.CircularInterpolation` | modulos/generador_trayectoria.py:57-82 | the loop builds `Arc`; every pose has the centroid's height and p1's orientation |
| `TrajectoryGenerator.ArcOnCircle` | modulos/generador_trayectoria.py:73-80 | every pose lies on the circle of the given radius around the centroid |
| `TrajectoryGenerator.SolveAll` | modulos/generador_trayectoria.py:30-37 | never more configurations than poses |
| `TrajectoryGenerator.Generate` | modulos/generador_trayectoria.py:5-37 | an unknown kind or too few points is an error; otherwise the IK solutions of the chosen path |
| `TrajectoryGenerator.SolveAllComplete` | modulos/generador_trayectoria.py:30-37 | when every pose is solvable, one configuration per pose, in order |
| `TrajectoryGenerator.SolveAllSound` | modulos/generador_trayectoria.py:30-37 | every configuration is the solution of some pose |
| `TrajectoryGenerator.SolveAllOrder` | modulos/generador_trayectoria.py:30-37 | configurations keep path order: the t-th is the solution of the pose at the t-th solvable position, the positions strictly increase, and every solvable pose contributes |
| `TrajectoryGenerator.SolveAllDrops` | modulos/generador_trayectoria.py:30-37 | an unsolvable pose makes the result shorter than the path |
| `NodeRed.ParseLine` | modulos/node_red.py:26-30 | a line is skipped iff its stripped text has no space |
| `NodeRed.ParseAll` | modulos/node_red.py:25-30 | one parse per line |
| `NodeRed.ReadLabels` | modulos/node_red.py:20-38 | the loop computes `LabelFile`: empty for a missing file or a bad key, else the map the lines build |
| `NodeRed.BadKeyEmpties` | modulos/node_red.py:28 | one non-integer key anywhere empties the whole result |
| `NodeRed.BadKeyStays` | modulos/node_red.py:36-38 | once a bad key is read, later lines cannot recover the result |
| `NodeRed.LastLineWins` | modulos/node_red.py:30 | each label is the value of the last line with that key |
| `NodeRed.EveryKeyKept` | modulos/node_red.py:25-30 | every key read is in the result |
| `Text.IntRoundTrip` | modulos/node_red.py:28 | `int` reads back what `str` prints for every integer |
| `NodeRed.WrittenLineParses` | modulos/node_red.py:26-29 | a written "k v" line parses back to (k, v) |
| `NodeRed.WrittenLineReadsBack` | modulos/node_red.py:25-30 | appending "k v" to a good file maps k to v and leaves the other keys alone |

## Left out

- Camera capture, image preprocessing, the two TFLite interpreters and the cv2 colour masks. The model takes what they produce: the probability vectors and the pixel count of each mask.
- `time.sleep` and `time.time` in the execution loop are `Sleep`/`Clear` events; the wall-clock clearing window is a number of frames it drains (`clearReads`).
- Arm.RobotArm.MoveServo: the two 0.05 s pauses of `mover_servo` (after the speed command and after the servo command) are not represented; they do not change what is written to the port.
- The stop flag written by another thread is an oracle (`stopAt`); the model does not represent concurrency.
- Execution.StopFlag: the flag object that `detener_ejecucion` sets is not linked to `stopAt`. Which read first sees the request depends on the thread interleaving, and that is what `stopAt` stands for.
- Logging, `print`, the empty-answer counter `contador_vacios` (only used for logging) and the "may remain" warning of the verification samples.
- `objeto_en_proceso` is always false at the top of the loop in a sequential run; its `continue` branch is not modelled.
- `brazo.angulos_servos` and `brazo.mover_servos` are not defined in `modulos/brazo_robotico.py`; the model treats the arm as reporting the targets it was last sent.
- Execution.PlayMovement: JSON parsing is abstracted as the `Line` datatype (`Malformed` or speed plus servo list). Blank lines that the source filters out are simply absent.
- Execution.RunExecution: a rule object missing the "shape", "color" or "movement" key raises KeyError in the source. The model's rules always have all three keys, and exceptions raised while an object is handled (other than the split's ValueError) are not modelled.
- Execution.RunExecution: with the belt present but its connection `None`, the source raises before sending anything. The model folds this into "not ready" (no command sent).
- Execution.MoveDurationCovers: the source's `velocidad_efectiva > 0` fallback to 0.0 is unreachable after the speed check; the model does not repeat it.
- Recognition.Recognize: a classifier call that raises inside the control loop is not modelled there; the loop consumes answers.
- NodeRed.ReadLabels: the source builds a Python dict, whose keys keep the order of first insertion (a re-assigned key stays where it first appeared), and `send_to_nodered` sends the labels in that order as the JSON payload. The model's `map<int, string>` has no order, so the key order of the payload is not modelled; only the key-to-label contents are.
- `inicializar_conexion` opens a serial port and sleeps two seconds; opening a device is I/O and is not modelled.
- The circumradius formula and the spline internals of `modulos/generador_trayectoria.py` are parameters (`Solvers`); `cinematica_inversa_ultrarrapida` is not part of this model, so the IK solver there is a parameter too.
- Floating point: rounding to two decimals in the forward kinematics, NaN and infinities, and float spacing in `linspace` are not modelled (exact reals). InverseKinematics.CalcAngles models only the exception the source can hit on reals: the division by a zero reach.
- Text.PyInt: underscores and non-ASCII digits accepted by Python's `int()`, and Unicode-wide `lower()`/`strip()`, are not modelled.
- Negative `pasos` / `num_pasos` are not modelled (step counts are `nat`).
- ForwardKinematics.Forward: an IndexError from fewer than five angles is modelled as `None`. The Euler-angle extraction is computed through the `Math` parameter with no property proved about it.
- The `print` of unreachable points in `modulos/trayectorias.py`.
