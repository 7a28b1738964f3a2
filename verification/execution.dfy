/**
 * The pick-and-sort control loop (`modulos/ejecucion.py`): the move-duration
 * estimate, the movement player, the detection debounce, the rule lookup and
 * the conveyor sequencing with its unconditional stop on exit.
 *
 * Camera, classifier, arm and conveyor are abstract. What the loop does to
 * them is recorded as a trace of `Event`s. The stop flag, written by another
 * thread, is an oracle: its k-th read (counting from 0 since the loop reset
 * it) sees `true` exactly when k >= stopAt, since once set it stays set.
 */
module Execution {
  import opened Wrappers
  import opened Text
  import opened RealMath
  import Conveyor

  /** Degrees per second of a servo at full speed (`VELOCIDAD_CONVERSION`). */
  const SPEED_CONVERSION: real := 60.0
  /** Settling time added to every move (`BUFFER_SEGURIDAD`). */
  const SAFETY_BUFFER: real := 0.2
  /** Pause after each handled object (`TIEMPO_ESPERA_ENTRE_MOVIMIENTOS`). */
  const PAUSE_AFTER_OBJECT: real := 1.0
  /** Frames sampled to confirm the area is empty (`MUESTRAS_VERIFICACION_VACIO`). */
  const VERIFY_SAMPLES: nat := 5
  /** Consecutive identical detections needed before acting (`UMBRAL_CONSISTENCIA_DETECCION`). */
  const CONSISTENCY_THRESHOLD: nat := 3
  /** Shortest wait after a movement step. */
  const MIN_STEP_WAIT: real := 0.1
  /** Wait after an empty or a preliminary detection. */
  const POLL_WAIT: real := 0.1
  /** Wait after each verification sample. */
  const SAMPLE_WAIT: real := 0.2
  /** The classifier's answer for "nothing in view". */
  const EMPTY: string := "vacio_vacio"

  /** A Python dict from servo number to angle, in insertion order (keys are distinct). */
  type JointTable = seq<(int, real)>

  function Max(a: real, b: real): real {
    if a < b then b else a
  }

  /** `current.get(servo, 0)`. */
  function Get(current: JointTable, servo: int): real {
    if current == [] then 0.0
    else if current[0].0 == servo then current[0].1
    else Get(current[1..], servo)
  }

  /** How far one target servo has to travel. */
  function Delta(current: JointTable, target: (int, real)): real {
    Abs(target.1 - Get(current, target.0))
  }

  /** The largest travel over the target servos. */
  function MaxDelta(current: JointTable, targets: JointTable): (r: real)
    requires targets != []
    ensures exists i :: 0 <= i < |targets| && r == Delta(current, targets[i])
    ensures forall i :: 0 <= i < |targets| ==> Delta(current, targets[i]) <= r
  {
    if |targets| == 1 then Delta(current, targets[0])
    else
      var rest := MaxDelta(current, targets[1..]);
      assert forall i :: 1 <= i < |targets| ==> targets[i] == targets[1..][i - 1];
      if Delta(current, targets[0]) < rest then rest else Delta(current, targets[0])
  }

  /** Degrees per second actually reached at `speed` percent. */
  function EffectiveSpeed(speed: real): real {
    speed / 100.0 * SPEED_CONVERSION
  }

  /**
   * `calcular_tiempo_movimiento`: the slowest servo's travel time at the
   * effective speed plus the settling buffer; see `MoveDurationCovers`.
   */
  function MoveDuration(current: JointTable, targets: JointTable, speed: real): real {
    if speed <= 0.0 || targets == [] then 0.0
    else MaxDelta(current, targets) / EffectiveSpeed(speed) + SAFETY_BUFFER
  }

  /** Seconds a servo needs to travel `delta` degrees at `speed` percent. */
  function TravelTime(delta: real, speed: real): real
    requires speed > 0.0
  {
    delta / EffectiveSpeed(speed)
  }

  /**
   * No time for a non-positive speed or an empty target; otherwise the
   * buffer plus enough for every target servo to cover its travel at the
   * effective speed, the slowest one exactly.
   */
  lemma MoveDurationCovers(current: JointTable, targets: JointTable, speed: real)
    ensures speed <= 0.0 || targets == [] ==> MoveDuration(current, targets, speed) == 0.0
    ensures speed > 0.0 && targets != [] ==> MoveDuration(current, targets, speed) >= SAFETY_BUFFER
    ensures speed > 0.0 ==> forall i :: 0 <= i < |targets| ==>
      TravelTime(Delta(current, targets[i]), speed) + SAFETY_BUFFER <= MoveDuration(current, targets, speed)
    ensures speed > 0.0 && targets != [] ==>
      exists i :: 0 <= i < |targets| &&
        TravelTime(Delta(current, targets[i]), speed) + SAFETY_BUFFER == MoveDuration(current, targets, speed)
  {
    if speed > 0.0 && targets != [] {
      var v := EffectiveSpeed(speed);
      var m := MaxDelta(current, targets);
      forall i | 0 <= i < |targets|
        ensures TravelTime(Delta(current, targets[i]), speed) <= m / v
      {
        DivMonotone(Delta(current, targets[i]), m, v);
      }
      assert Delta(current, targets[0]) >= 0.0;
      DivMonotone(0.0, m, v);
    }
  }

  /** A longer largest travel never gives a shorter move at the same speed. */
  lemma MoveDurationMonotone(c1: JointTable, t1: JointTable, c2: JointTable, t2: JointTable, speed: real)
    requires speed > 0.0 && t1 != [] && t2 != []
    requires MaxDelta(c1, t1) <= MaxDelta(c2, t2)
    ensures MoveDuration(c1, t1, speed) <= MoveDuration(c2, t2, speed)
  {
    DivMonotone(MaxDelta(c1, t1), MaxDelta(c2, t2), EffectiveSpeed(speed));
  }

  /** One line of a movement file, once parsed. */
  datatype Line =
    | Malformed                              // not JSON, a missing key, or a non-numeric value
    | Entry(speed: real, servos: seq<real>)  // `{"velocidad": ..., "servos": [...]}`

  /** A line that the player acts on: six servo angles. */
  predicate Accepted(l: Line) {
    l.Entry? && |l.servos| == 6
  }

  /** The map `{i+1: servos[i] for i in range(6)}`. */
  function JointTargets(servos: seq<real>): (t: JointTable)
    requires |servos| == 6
    ensures |t| == 6 && forall i :: 0 <= i < 6 ==> t[i] == (i + 1, servos[i])
  {
    [(1, servos[0]), (2, servos[1]), (3, servos[2]), (4, servos[3]), (5, servos[4]), (6, servos[5])]
  }

  /** What the loop does to the outside world, in order. */
  datatype Event =
    | Belt(command: string)                    // a conveyor command
    | Move(targets: JointTable, speed: real)   // `brazo.mover_servos(targets, speed)`
    | Sleep(seconds: real)                     // `time.sleep(seconds)`
    | Clear                                    // the wall-clock window that drains the camera
    | Sample                                   // one verification frame

  predicate MovementOnly(events: seq<Event>) {
    forall i :: 0 <= i < |events| ==> events[i].Move? || events[i].Sleep?
  }

  predicate AllAccepted(acc: seq<Line>) {
    forall i :: 0 <= i < |acc| ==> Accepted(acc[i])
  }

  /** The accepted lines among the first `k` of `lines`, in order; see `AcceptedLinesMembers`. */
  function AcceptedLines(lines: seq<Line>, k: nat): (acc: seq<Line>)
    requires k <= |lines|
    ensures |acc| <= k && AllAccepted(acc)
  {
    if k == 0 then []
    else AcceptedLines(lines, k - 1) + (if Accepted(lines[k - 1]) then [lines[k - 1]] else [])
  }

  /** A line is played exactly when it occurs among the lines read and is accepted. */
  lemma {:induction false} AcceptedLinesMembers(lines: seq<Line>, k: nat)
    requires k <= |lines|
    ensures forall l :: l in AcceptedLines(lines, k) <==> l in lines[..k] && Accepted(l)
  {
    if k > 0 {
      AcceptedLinesMembers(lines, k - 1);
      assert lines[..k] == lines[..k - 1] + [lines[k - 1]];
    }
  }

  /** The positions of the accepted lines among the first `k`, in increasing order. */
  function AcceptedIndices(lines: seq<Line>, k: nat): seq<nat>
    requires k <= |lines|
  {
    if k == 0 then []
    else AcceptedIndices(lines, k - 1) + (if Accepted(lines[k - 1]) then [k - 1] else [])
  }

  /**
   * Lines are played in file order and none is skipped but a rejected one:
   * the t-th line played is the line at the t-th accepted position, the
   * positions strictly increase, and every accepted position below `k` is one
   * of them.
   */
  lemma {:induction false} AcceptedLinesOrder(lines: seq<Line>, k: nat)
    requires k <= |lines|
    ensures var idx, acc := AcceptedIndices(lines, k), AcceptedLines(lines, k);
      |idx| == |acc| &&
      (forall t :: 0 <= t < |idx| ==> idx[t] < k && acc[t] == lines[idx[t]]) &&
      (forall t, u :: 0 <= t < u < |idx| ==> idx[t] < idx[u]) &&
      (forall i :: 0 <= i < k && Accepted(lines[i]) ==> i in idx)
  {
    if k > 0 {
      AcceptedLinesOrder(lines, k - 1);
      var idx, acc := AcceptedIndices(lines, k - 1), AcceptedLines(lines, k - 1);
      if Accepted(lines[k - 1]) {
        assert AcceptedIndices(lines, k) == idx + [k - 1] && AcceptedLines(lines, k) == acc + [lines[k - 1]];
      } else {
        assert AcceptedIndices(lines, k) == idx && AcceptedLines(lines, k) == acc;
      }
    }
  }

  /** The arm's angle table once the first `k` steps of `acc` have been sent. */
  function ArmAfter(acc: seq<Line>, k: nat, arm: JointTable): JointTable
    requires AllAccepted(acc) && k <= |acc|
  {
    if k == 0 then arm else JointTargets(acc[k - 1].servos)
  }

  /** The wait after step `j` of `acc`. */
  function StepWait(acc: seq<Line>, j: nat, arm: JointTable): real
    requires AllAccepted(acc) && j < |acc|
  {
    Max(MoveDuration(ArmAfter(acc, j, arm), JointTargets(acc[j].servos), acc[j].speed), MIN_STEP_WAIT)
  }

  /** The events of playing the accepted lines `acc` from the arm table `arm`; see `StepsShape`. */
  function Steps(acc: seq<Line>, arm: JointTable): (events: seq<Event>)
    requires AllAccepted(acc)
    ensures |events| == 2 * |acc|
  {
    if acc == [] then []
    else
      var n := |acc| - 1;
      Steps(acc[..n], arm) + [Move(JointTargets(acc[n].servos), acc[n].speed), Sleep(StepWait(acc, n, arm))]
  }

  /** Event `i` of playing `acc`: even events are moves, odd ones the waits after them. */
  function StepEvent(acc: seq<Line>, i: nat, arm: JointTable): Event
    requires AllAccepted(acc) && i < 2 * |acc|
  {
    if i % 2 == 0 then Move(JointTargets(acc[i / 2].servos), acc[i / 2].speed)
    else Sleep(StepWait(acc, i / 2, arm))
  }

  /**
   * Each accepted line is one move to servos 1..6 followed by one wait, at
   * least 0.1 s and at least the estimated duration from where the arm was;
   * nothing else is sent.
   */
  lemma StepsShape(acc: seq<Line>, arm: JointTable)
    requires AllAccepted(acc)
    ensures forall i :: 0 <= i < |Steps(acc, arm)| ==> Steps(acc, arm)[i] == StepEvent(acc, i, arm)
    ensures MovementOnly(Steps(acc, arm))
  {
    forall i | 0 <= i < |Steps(acc, arm)|
      ensures Steps(acc, arm)[i] == StepEvent(acc, i, arm)
    {
      StepsAt(acc, arm, i);
    }
  }

  /** Event `i` of playing `acc` is `StepEvent(acc, i, arm)`. */
  lemma {:induction false} StepsAt(acc: seq<Line>, arm: JointTable, i: nat)
    requires AllAccepted(acc) && i < 2 * |acc|
    ensures Steps(acc, arm)[i] == StepEvent(acc, i, arm)
  {
    var n := |acc| - 1;
    var prev := Steps(acc[..n], arm);
    var last := [Move(JointTargets(acc[n].servos), acc[n].speed), Sleep(StepWait(acc, n, arm))];
    assert Steps(acc, arm) == prev + last;
    if i < 2 * n {
      assert AllAccepted(acc[..n]);
      StepsAt(acc[..n], arm, i);
      StepEventPrefix(acc, n, arm, i);
      assert Steps(acc, arm)[i] == prev[i];
    } else if i == 2 * n {
      assert i / 2 == n && i % 2 == 0;
      assert Steps(acc, arm)[i] == last[0];
    } else {
      assert i / 2 == n && i % 2 == 1;
      assert Steps(acc, arm)[i] == last[1];
    }
  }

  /** The first `n` lines are played the same whatever follows them. */
  lemma StepEventPrefix(acc: seq<Line>, n: nat, arm: JointTable, i: nat)
    requires AllAccepted(acc) && n <= |acc| && i < 2 * n
    ensures AllAccepted(acc[..n])
    ensures StepEvent(acc[..n], i, arm) == StepEvent(acc, i, arm)
  {
    var j := i / 2;
    assert acc[..n][j] == acc[j];
    assert ArmAfter(acc[..n], j, arm) == ArmAfter(acc, j, arm);
  }

  /** Playing one more accepted line appends its move and its wait. */
  lemma StepsSnoc(acc: seq<Line>, line: Line, arm: JointTable)
    requires AllAccepted(acc) && Accepted(line)
    ensures AllAccepted(acc + [line])
    ensures Steps(acc + [line], arm) == Steps(acc, arm) +
      [Move(JointTargets(line.servos), line.speed),
       Sleep(Max(MoveDuration(ArmAfter(acc, |acc|, arm), JointTargets(line.servos), line.speed), MIN_STEP_WAIT))]
  {
    assert (acc + [line])[..|acc|] == acc;
    assert ArmAfter(acc + [line], |acc|, arm) == ArmAfter(acc, |acc|, arm);
  }

  /**
   * Playing one more line appends, if it is accepted, what playing that line
   * alone sends from where the lines before left the arm.
   */
  lemma PlayLine(acc: seq<Line>, line: Line, arm: JointTable)
    requires AllAccepted(acc)
    ensures var next := acc + (if Accepted(line) then [line] else []);
      AllAccepted(next) &&
      Steps(next, arm) == Steps(acc, arm) + (if Accepted(line) then Steps([line], ArmAfter(acc, |acc|, arm)) else []) &&
      ArmAfter(next, |next|, arm) == (if Accepted(line) then JointTargets(line.servos) else ArmAfter(acc, |acc|, arm))
  {
    if Accepted(line) {
      StepsSnoc(acc, line, arm);
      StepsSnoc([], line, ArmAfter(acc, |acc|, arm));
      assert [] + [line] == [line];
    } else {
      assert acc + [] == acc;
    }
  }

  /**
   * One line of the movement file: a malformed line or one without six angles
   * is skipped; otherwise the move is sent and the player waits for it.
   */
  method SendLine(line: Line, current: JointTable) returns (events: seq<Event>, armAfter: JointTable)
    ensures !Accepted(line) ==> events == [] && armAfter == current
    ensures Accepted(line) ==> events == Steps([line], current) && armAfter == JointTargets(line.servos)
  {
    events, armAfter := [], current;
    if line.Entry? && |line.servos| == 6 {
      var targets := JointTargets(line.servos);
      var t := MoveDuration(current, targets, line.speed);
      events := [Move(targets, line.speed), Sleep(Max(t, MIN_STEP_WAIT))];
      armAfter := targets;
    }
  }

  /** How many lines the player gets to before it sees the stop flag. */
  function Played(n: nat, stopAt: nat, checks: nat): (k: nat)
    ensures k <= n
  {
    if checks >= stopAt then 0 else if n < stopAt - checks then n else stopAt - checks
  }

  /**
   * `procesar_movimiento`: before each line the stop flag is read; once it is
   * seen set no further step is sent. A malformed line, or one without exactly
   * six servo angles, is skipped and the lines after it still run. Every
   * accepted line sends one move and then waits (see `Steps`).
   */
  method PlayMovement(lines: seq<Line>, arm: JointTable, stopAt: nat, checks: nat)
    returns (events: seq<Event>, armAfter: JointTable, checksAfter: nat)
    ensures var k := Played(|lines|, stopAt, checks);
      events == Steps(AcceptedLines(lines, k), arm) &&
      armAfter == ArmAfter(AcceptedLines(lines, k), |AcceptedLines(lines, k)|, arm) &&
      checksAfter == checks + (if k < |lines| then k + 1 else k)
  {
    events, armAfter, checksAfter := [], arm, checks;
    var i := 0;
    ghost var acc: seq<Line> := [];
    while i < |lines|
      invariant 0 <= i <= |lines|
      invariant checksAfter == checks + i
      invariant i == 0 || checks + i <= stopAt
      invariant acc == AcceptedLines(lines, i)
      invariant events == Steps(acc, arm)
      invariant armAfter == ArmAfter(acc, |acc|, arm)
    {
      var stop := checksAfter >= stopAt;
      checksAfter := checksAfter + 1;
      if stop {
        assert Played(|lines|, stopAt, checks) == i;
        return;
      }
      var line := lines[i];
      PlayLine(acc, line, arm);
      var more;
      more, armAfter := SendLine(line, armAfter);
      events := events + more;
      acc := acc + (if Accepted(line) then [line] else []);
      i := i + 1;
    }
    assert Played(|lines|, stopAt, checks) == |lines|;
  }

  /** The state of the detection debounce: `contador_detecciones` and `ultimo_objeto`. */
  datatype Debounce = Debounce(count: nat, last: Option<string>)

  const INITIAL: Debounce := Debounce(0, None)

  /**
   * One classifier answer: the empty answer sets the count to 0 (the last
   * label is kept); a label equal to the last one increments it; a different
   * one restarts it at 1.
   */
  function Observe(d: Debounce, answer: string): Debounce {
    if answer == EMPTY then d.(count := 0)
    else if d.last == Some(answer) then Debounce(d.count + 1, d.last)
    else Debounce(1, Some(answer))
  }

  /** The debounce state after a run of answers. */
  function ObserveAll(d: Debounce, labels: seq<string>): Debounce {
    if labels == [] then d else Observe(ObserveAll(d, labels[..|labels| - 1]), labels[|labels| - 1])
  }

  /** Reference definition: the length of the trailing run of one identical non-empty answer. */
  function Run(labels: seq<string>): nat {
    if labels == [] || labels[|labels| - 1] == EMPTY then 0
    else if |labels| >= 2 && labels[|labels| - 2] == labels[|labels| - 1] then Run(labels[..|labels| - 1]) + 1
    else 1
  }

  /** From a reset, the debounce count is exactly the trailing run of identical non-empty labels. */
  lemma {:induction false} ObserveAllCountsRun(labels: seq<string>)
    ensures ObserveAll(INITIAL, labels).count == Run(labels)
    ensures labels != [] && labels[|labels| - 1] != EMPTY ==>
      ObserveAll(INITIAL, labels).last == Some(labels[|labels| - 1])
  {
    if labels != [] {
      var init := labels[..|labels| - 1];
      ObserveAllCountsRun(init);
      if |labels| >= 2 {
        assert init[|init| - 1] == labels[|labels| - 2];
        assert init[..|init| - 1] == labels[..|labels| - 2];
      }
    }
  }

  /** Three frames ending at `j` carry one and the same non-empty answer. */
  predicate Consistent(frames: seq<string>, j: int) {
    2 <= j < |frames| && frames[j] != EMPTY && frames[j - 2] == frames[j - 1] == frames[j]
  }

  /** A run reaches the threshold exactly when its last three answers are one non-empty answer. */
  lemma {:induction false} RunReachesThreshold(labels: seq<string>)
    ensures Run(labels) >= CONSISTENCY_THRESHOLD <==> Consistent(labels, |labels| - 1)
  {
    var n := |labels|;
    if n >= 2 && labels[n - 1] != EMPTY && labels[n - 2] == labels[n - 1] {
      var init := labels[..n - 1];
      assert Run(init) >= 1;
      if n >= 3 {
        assert init[n - 2] == labels[n - 2] && init[n - 3] == labels[n - 3];
        assert Run(init) >= 2 <==> labels[n - 3] == labels[n - 2];
      }
    }
  }

  /** One rule of the logic file: `{"shape": ..., "color": ..., "movement": ...}`. */
  datatype Rule = Rule(shape: string, colour: string, movement: string)

  predicate Matches(r: Rule, shape: string, colour: string) {
    r.shape == shape && r.colour == colour
  }

  /** The first rule, in file order, whose shape and colour both match. */
  function FirstMatch(rules: seq<Rule>, shape: string, colour: string, from: nat := 0): (r: Option<nat>)
    requires from <= |rules|
    ensures r.Some? ==> from <= r.value < |rules| && Matches(rules[r.value], shape, colour)
    ensures r.Some? ==> forall j :: from <= j < r.value ==> !Matches(rules[j], shape, colour)
    ensures r.None? ==> forall j :: from <= j < |rules| ==> !Matches(rules[j], shape, colour)
    decreases |rules| - from
  {
    if from == |rules| then None
    else if Matches(rules[from], shape, colour) then Some(from)
    else FirstMatch(rules, shape, colour, from + 1)
  }

  /**
   * `forma, color = resultado.split('_')`: succeeds only when the answer holds
   * exactly one underscore; otherwise Python raises ValueError.
   */
  function SplitPair(answer: string): (r: Option<(string, string)>)
    ensures r.Some? ==> answer == r.value.0 + "_" + r.value.1 && '_' !in r.value.0 && '_' !in r.value.1
    ensures r.None? ==>
      '_' !in answer || exists i, j :: 0 <= i < j < |answer| && answer[i] == '_' && answer[j] == '_'
  {
    match SplitOnce(answer, '_')
    case None => None
    case Some((a, b)) =>
      if '_' in b then
        var k :| 0 <= k < |b| && b[k] == '_';
        assert answer[|a|] == '_' && answer[|a| + 1 + k] == '_';
        None
      else Some((a, b))
  }

  /** The rule the loop acts on for a consistent answer, if any. */
  function Decide(rules: seq<Rule>, answer: string): Option<Rule> {
    match SplitPair(answer)
    case None => None
    case Some((shape, colour)) =>
      match FirstMatch(rules, shape, colour)
      case None => None
      case Some(i) => Some(rules[i])
  }

  /** The verification samples: each frame is read and followed by a short wait. */
  function VerifyEvents(n: nat): (events: seq<Event>)
    ensures |events| == 2 * n
    ensures forall j :: 0 <= j < n ==> events[2 * j] == Sample && events[2 * j + 1] == Sleep(SAMPLE_WAIT)
  {
    if n == 0 then [] else VerifyEvents(n - 1) + [Sample, Sleep(SAMPLE_WAIT)]
  }

  /** Everything after the movement of a handled object: restart, clear, verify, pause. */
  function AfterMovement(): seq<Event> {
    [Belt(Conveyor.ACTIVATE), Clear] + VerifyEvents(VERIFY_SAMPLES) + [Sleep(PAUSE_AFTER_OBJECT)]
  }

  /** What one pass of the detection loop contributes to the trace. */
  datatype Phase =
    | Wait                                              // an empty or preliminary detection
    | Handle(frame: nat, rule: Rule, movement: seq<Event>) // an object acted on

  function PhaseEvents(p: Phase): seq<Event> {
    match p
    case Wait => [Sleep(POLL_WAIT)]
    case Handle(_, _, movement) => [Belt(Conveyor.DEACTIVATE)] + movement + AfterMovement()
  }

  function Flatten(phases: seq<Phase>): seq<Event> {
    if phases == [] then [] else Flatten(phases[..|phases| - 1]) + PhaseEvents(phases[|phases| - 1])
  }

  /** Where the camera stream stands after the clearing window and the verification samples. */
  function ClearEnd(frames: seq<string>, cursor: nat, clearReads: nat): nat {
    if cursor + clearReads + VERIFY_SAMPLES < |frames| then cursor + clearReads + VERIFY_SAMPLES else |frames|
  }

  /**
   * The clearing window and the verification samples. A read past the end of
   * the camera stream fails; the frame is then `None`, which the classifier
   * reports as empty, so the sample still counts.
   */
  method ClearAndVerify(frames: seq<string>, cursor: nat, clearReads: nat) returns (events: seq<Event>, next: nat)
    requires cursor <= |frames|
    ensures events == AfterMovement()
    ensures next == ClearEnd(frames, cursor, clearReads)
    ensures cursor <= next <= |frames|
  {
    events := [Belt(Conveyor.ACTIVATE), Clear];
    next := if cursor + clearReads < |frames| then cursor + clearReads else |frames|;
    var k := 0;
    while k < VERIFY_SAMPLES
      invariant 0 <= k <= VERIFY_SAMPLES
      invariant next == if cursor + clearReads + k < |frames| then cursor + clearReads + k else |frames|
      invariant events == [Belt(Conveyor.ACTIVATE), Clear] + VerifyEvents(k)
    {
      if next < |frames| {
        next := next + 1;
      }
      events := events + [Sample, Sleep(SAMPLE_WAIT)];
      k := k + 1;
    }
    events := events + [Sleep(PAUSE_AFTER_OBJECT)];
  }

  /**
   * The movement of a rule, played from `checks` flag reads with the arm at
   * `arm`: its events, the flag reads after it and the arm's table after it.
   * A missing movement file plays nothing.
   */
  function MovementOf(rule: Rule, movements: map<string, seq<Line>>, stopAt: nat, checks: nat, arm: JointTable)
    : (r: (seq<Event>, nat, JointTable))
    ensures MovementOnly(r.0) && checks <= r.1
  {
    if rule.movement !in movements then ([], checks, arm)
    else
      var lines := movements[rule.movement];
      var k := Played(|lines|, stopAt, checks);
      var acc := AcceptedLines(lines, k);
      StepsShape(acc, arm);
      (Steps(acc, arm), checks + (if k < |lines| then k + 1 else k), ArmAfter(acc, |acc|, arm))
  }

  /** The loop's variables between passes: the frame cursor, the debounce, the flag reads so far and the arm. */
  datatype LoopState = LoopState(cursor: nat, d: Debounce, checks: nat, arm: JointTable)

  /**
   * The state after an object is acted on, `cursor` frames and `checks` flag
   * reads into the loop: the stream past the clearing window and the samples,
   * a clear debounce, and the flag reads and arm after the movement.
   */
  function AfterObject(rule: Rule, movements: map<string, seq<Line>>, frames: seq<string>, clearReads: nat,
                       stopAt: nat, cursor: nat, checks: nat, arm: JointTable): LoopState
  {
    var mv := MovementOf(rule, movements, stopAt, checks, arm);
    LoopState(ClearEnd(frames, cursor, clearReads), INITIAL, mv.1, mv.2)
  }

  /**
   * One pass of the detection loop: `None` when the loop ends there (the flag
   * is seen set, or the camera has no frame); otherwise the phase the pass
   * contributes (none after a malformed or unconfigured answer) and the state
   * the next pass starts from.
   */
  function NextPass(rules: seq<Rule>, movements: map<string, seq<Line>>, frames: seq<string>, clearReads: nat,
                    stopAt: nat, s: LoopState): (r: Option<(Option<Phase>, LoopState)>)
    requires s.cursor <= |frames|
    ensures r.None? <==> s.checks >= stopAt || s.cursor == |frames|
    ensures r.Some? ==> s.cursor < r.value.1.cursor <= |frames|
  {
    if s.checks >= stopAt || s.cursor == |frames| then None
    else
      var answer := frames[s.cursor];
      var d := Observe(s.d, answer);
      var checks := s.checks + 1;
      if answer == EMPTY || d.count < CONSISTENCY_THRESHOLD then
        Some((Some(Wait), LoopState(s.cursor + 1, d, checks, s.arm)))
      else if SplitPair(answer).None? then
        Some((None, LoopState(s.cursor + 1, d, checks, s.arm)))
      else
        match Decide(rules, answer)
        case None => Some((None, LoopState(s.cursor + 1, INITIAL, checks, s.arm)))
        case Some(rule) =>
          Some((Some(Handle(s.cursor, rule, MovementOf(rule, movements, stopAt, checks, s.arm).0)),
                AfterObject(rule, movements, frames, clearReads, stopAt, s.cursor + 1, checks, s.arm)))
  }

  /** The phases of the detection loop from state `s` until it ends. */
  function LoopFrom(rules: seq<Rule>, movements: map<string, seq<Line>>, frames: seq<string>, clearReads: nat,
                    stopAt: nat, s: LoopState): seq<Phase>
    requires s.cursor <= |frames|
    decreases |frames| - s.cursor
  {
    match NextPass(rules, movements, frames, clearReads, stopAt, s)
    case None => []
    case Some((p, next)) => (if p.Some? then [p.value] else []) + LoopFrom(rules, movements, frames, clearReads, stopAt, next)
  }

  /** A pass that ends the loop contributes nothing more. */
  lemma LoopFromDone(rules: seq<Rule>, movements: map<string, seq<Line>>, frames: seq<string>, clearReads: nat,
                     stopAt: nat, s: LoopState)
    requires s.cursor <= |frames| && (s.checks >= stopAt || s.cursor == |frames|)
    ensures LoopFrom(rules, movements, frames, clearReads, stopAt, s) == []
  {
  }

  /** A pass that goes on contributes its phase, if any, ahead of the rest of the loop. */
  lemma LoopFromUnfold(rules: seq<Rule>, movements: map<string, seq<Line>>, frames: seq<string>, clearReads: nat,
                       stopAt: nat, s: LoopState, p: Option<Phase>, next: LoopState)
    requires s.cursor <= |frames|
    requires NextPass(rules, movements, frames, clearReads, stopAt, s) == Some((p, next))
    ensures p.None? ==>
      LoopFrom(rules, movements, frames, clearReads, stopAt, s) == LoopFrom(rules, movements, frames, clearReads, stopAt, next)
    ensures p.Some? ==>
      LoopFrom(rules, movements, frames, clearReads, stopAt, s) ==
      [p.value] + LoopFrom(rules, movements, frames, clearReads, stopAt, next)
  {
    if p.None? {
      assert [] + LoopFrom(rules, movements, frames, clearReads, stopAt, next) ==
        LoopFrom(rules, movements, frames, clearReads, stopAt, next);
    }
  }

  /** The phases of a whole detection loop, from the first frame with a clear debounce. */
  function LoopPhases(rules: seq<Rule>, movements: map<string, seq<Line>>, frames: seq<string>, clearReads: nat,
                      stopAt: nat, arm: JointTable): seq<Phase>
  {
    LoopFrom(rules, movements, frames, clearReads, stopAt, LoopState(0, INITIAL, 0, arm))
  }

  /** Every object acted on was seen consistently and has a matching rule, and only its movement moved the arm. */
  predicate HandledWell(phases: seq<Phase>, rules: seq<Rule>, frames: seq<string>) {
    forall p :: p in phases && p.Handle? ==>
      Consistent(frames, p.frame) && Decide(rules, frames[p.frame]) == Some(p.rule) && MovementOnly(p.movement)
  }

  lemma FlattenSnoc(phases: seq<Phase>, p: Phase)
    ensures Flatten(phases + [p]) == Flatten(phases) + PhaseEvents(p)
  {
    assert (phases + [p])[..|phases|] == phases;
  }

  /** Reading one more frame feeds one more answer to the debounce. */
  lemma ObserveNext(frames: seq<string>, seg: nat, cursor: nat)
    requires seg <= cursor < |frames|
    ensures ObserveAll(INITIAL, frames[seg..cursor + 1]) == Observe(ObserveAll(INITIAL, frames[seg..cursor]), frames[cursor])
  {
    assert frames[seg..cursor + 1][..cursor - seg] == frames[seg..cursor];
  }

  /** When the debounce fires, the last three frames read carry the same non-empty label. */
  lemma DebounceFires(frames: seq<string>, seg: nat, cursor: nat)
    requires seg <= cursor <= |frames|
    requires ObserveAll(INITIAL, frames[seg..cursor]).count >= CONSISTENCY_THRESHOLD
    ensures seg + 3 <= cursor && Consistent(frames, cursor - 1)
  {
    var w := frames[seg..cursor];
    ObserveAllCountsRun(w);
    RunReachesThreshold(w);
    assert w[|w| - 1] == frames[cursor - 1] && w[|w| - 2] == frames[cursor - 2] && w[|w| - 3] == frames[cursor - 3];
  }

  /**
   * The loop's debounce always holds the answers read since its last reset
   * (frame `seg` on), so every object the loop acts on was seen three times
   * in a row, has a matching rule, and only its movement moved the arm.
   */
  lemma {:induction false} LoopFromSound(rules: seq<Rule>, movements: map<string, seq<Line>>, frames: seq<string>,
                                         clearReads: nat, stopAt: nat, s: LoopState, seg: nat)
    requires seg <= s.cursor <= |frames|
    requires s.d == ObserveAll(INITIAL, frames[seg..s.cursor])
    ensures HandledWell(LoopFrom(rules, movements, frames, clearReads, stopAt, s), rules, frames)
    decreases |frames| - s.cursor
  {
    if s.checks < stopAt && s.cursor < |frames| {
      var answer := frames[s.cursor];
      var (p, next) := NextPass(rules, movements, frames, clearReads, stopAt, s).value;
      ObserveNext(frames, seg, s.cursor);
      if answer == EMPTY || Observe(s.d, answer).count < CONSISTENCY_THRESHOLD || SplitPair(answer).None? {
        LoopFromSound(rules, movements, frames, clearReads, stopAt, next, seg);
      } else {
        assert frames[next.cursor..next.cursor] == [];
        LoopFromSound(rules, movements, frames, clearReads, stopAt, next, next.cursor);
        DebounceFires(frames, seg, s.cursor + 1);
      }
    }
  }

  /** Soundness of the whole loop; a flag set at once or an empty camera stream yields nothing. */
  lemma LoopSound(rules: seq<Rule>, movements: map<string, seq<Line>>, frames: seq<string>, clearReads: nat,
                  stopAt: nat, arm: JointTable)
    ensures HandledWell(LoopPhases(rules, movements, frames, clearReads, stopAt, arm), rules, frames)
    ensures stopAt == 0 || frames == [] ==> LoopPhases(rules, movements, frames, clearReads, stopAt, arm) == []
  {
    assert frames[0..0] == [];
    LoopFromSound(rules, movements, frames, clearReads, stopAt, LoopState(0, INITIAL, 0, arm), 0);
  }

  /** An empty or preliminary answer: the pass waits and the loop goes on with the next frame. */
  lemma WaitPass(rules: seq<Rule>, movements: map<string, seq<Line>>, frames: seq<string>, clearReads: nat,
                 stopAt: nat, s: LoopState)
    requires s.checks < stopAt && s.cursor < |frames|
    requires frames[s.cursor] == EMPTY || Observe(s.d, frames[s.cursor]).count < CONSISTENCY_THRESHOLD
    ensures LoopFrom(rules, movements, frames, clearReads, stopAt, s) ==
      [Wait] + LoopFrom(rules, movements, frames, clearReads, stopAt,
                        LoopState(s.cursor + 1, Observe(s.d, frames[s.cursor]), s.checks + 1, s.arm))
  {
    var next := LoopState(s.cursor + 1, Observe(s.d, frames[s.cursor]), s.checks + 1, s.arm);
    LoopFromUnfold(rules, movements, frames, clearReads, stopAt, s, Some(Wait), next);
  }

  /**
   * When the debounce fires on an answer with a rule, the pass acts on that
   * object: its movement is the rule's movement played from where the arm
   * stands, and the loop goes on after the verification samples with a
   * clear debounce.
   */
  lemma FiresHandles(rules: seq<Rule>, movements: map<string, seq<Line>>, frames: seq<string>, clearReads: nat,
                     stopAt: nat, s: LoopState, rule: Rule)
    requires s.checks < stopAt && s.cursor < |frames|
    requires frames[s.cursor] != EMPTY && Observe(s.d, frames[s.cursor]).count >= CONSISTENCY_THRESHOLD
    requires Decide(rules, frames[s.cursor]) == Some(rule)
    ensures LoopFrom(rules, movements, frames, clearReads, stopAt, s) ==
      [Handle(s.cursor, rule, MovementOf(rule, movements, stopAt, s.checks + 1, s.arm).0)] +
      LoopFrom(rules, movements, frames, clearReads, stopAt,
               AfterObject(rule, movements, frames, clearReads, stopAt, s.cursor + 1, s.checks + 1, s.arm))
  {
    var handle := Handle(s.cursor, rule, MovementOf(rule, movements, stopAt, s.checks + 1, s.arm).0);
    var next := AfterObject(rule, movements, frames, clearReads, stopAt, s.cursor + 1, s.checks + 1, s.arm);
    assert NextPass(rules, movements, frames, clearReads, stopAt, s) == Some((Some(handle), next));
    LoopFromUnfold(rules, movements, frames, clearReads, stopAt, s, Some(handle), next);
  }

  /**
   * Three agreeing answers after a cleared count: two passes wait on the
   * preliminary detections, the third acts on the object with its first
   * matching rule (the flag is read once per pass, so it must stay clear for
   * three reads).
   */
  lemma ThreeAgreeing(rules: seq<Rule>, movements: map<string, seq<Line>>, frames: seq<string>, clearReads: nat,
                      stopAt: nat, s: LoopState, rule: Rule)
    requires s.d.count == 0 && s.checks + 3 <= stopAt && s.cursor + 3 <= |frames|
    requires var c := s.cursor; frames[c] != EMPTY && frames[c + 1] == frames[c] && frames[c + 2] == frames[c]
    requires Decide(rules, frames[s.cursor]) == Some(rule)
    ensures var a := frames[s.cursor];
      var s1 := LoopState(s.cursor + 1, Debounce(1, Some(a)), s.checks + 1, s.arm);
      var s2 := LoopState(s.cursor + 2, Debounce(2, Some(a)), s.checks + 2, s.arm);
      NextPass(rules, movements, frames, clearReads, stopAt, s) == Some((Some(Wait), s1)) &&
      NextPass(rules, movements, frames, clearReads, stopAt, s1) == Some((Some(Wait), s2)) &&
      NextPass(rules, movements, frames, clearReads, stopAt, s2) ==
        Some((Some(Handle(s.cursor + 2, rule, MovementOf(rule, movements, stopAt, s.checks + 3, s.arm).0)),
              AfterObject(rule, movements, frames, clearReads, stopAt, s.cursor + 3, s.checks + 3, s.arm)))
  {
  }

  /** The smaller of the flag reads left and the frames left: how long an empty belt is polled. */
  function PollsLeft(frames: seq<string>, stopAt: nat, s: LoopState): nat
    requires s.cursor <= |frames|
  {
    if s.checks >= stopAt then 0
    else if stopAt - s.checks < |frames| - s.cursor then stopAt - s.checks
    else |frames| - s.cursor
  }

  /**
   * On an empty belt the loop waits once per frame until the flag is seen set
   * or the camera stream ends, and never acts.
   */
  lemma {:induction false} EmptyBeltWaits(rules: seq<Rule>, movements: map<string, seq<Line>>, frames: seq<string>,
                                          clearReads: nat, stopAt: nat, s: LoopState)
    requires s.cursor <= |frames|
    requires forall i :: s.cursor <= i < |frames| ==> frames[i] == EMPTY
    ensures LoopFrom(rules, movements, frames, clearReads, stopAt, s) == seq(PollsLeft(frames, stopAt, s), _ => Wait)
    decreases |frames| - s.cursor
  {
    if s.checks < stopAt && s.cursor < |frames| {
      var next := LoopState(s.cursor + 1, Observe(s.d, EMPTY), s.checks + 1, s.arm);
      EmptyBeltWaits(rules, movements, frames, clearReads, stopAt, next);
      assert PollsLeft(frames, stopAt, s) == PollsLeft(frames, stopAt, next) + 1;
      assert seq(PollsLeft(frames, stopAt, s), _ => Wait) == [Wait] + seq(PollsLeft(frames, stopAt, next), _ => Wait);
    }
  }

  /**
   * One object acted on: stop the belt, play the rule's movement when its
   * file exists, then restart, clear and verify (`AfterMovement`).
   */
  method HandleObject(rule: Rule, movements: map<string, seq<Line>>, frames: seq<string>, cursor: nat,
                      clearReads: nat, stopAt: nat, checks: nat, arm: JointTable)
    returns (events: seq<Event>, movement: seq<Event>, next: nat, checksAfter: nat, armAfter: JointTable)
    requires cursor <= |frames|
    ensures events == [Belt(Conveyor.DEACTIVATE)] + movement + AfterMovement()
    ensures rule.movement !in movements ==> movement == [] && checksAfter == checks && armAfter == arm
    ensures rule.movement in movements ==>
      var lines := movements[rule.movement];
      var k := Played(|lines|, stopAt, checks);
      var acc := AcceptedLines(lines, k);
      movement == Steps(acc, arm) && armAfter == ArmAfter(acc, |acc|, arm) &&
      checksAfter == checks + (if k < |lines| then k + 1 else k)
    ensures MovementOnly(movement)
    ensures next == ClearEnd(frames, cursor, clearReads)
  {
    movement, armAfter, checksAfter := [], arm, checks;
    if rule.movement in movements {
      var lines := movements[rule.movement];
      movement, armAfter, checksAfter := PlayMovement(lines, arm, stopAt, checks);
      StepsShape(AcceptedLines(lines, Played(|lines|, stopAt, checks)), arm);
    }
    var tail;
    tail, next := ClearAndVerify(frames, cursor, clearReads);
    events := [Belt(Conveyor.DEACTIVATE)] + movement + tail;
  }

  /**
   * The loop's reaction once the same label has been seen three times in a
   * row (the last frame read is at `cursor - 1`): a label that does not split
   * into shape and colour is logged and the debounce kept; a label without a
   * rule resets the debounce; otherwise the object is handled (see
   * `HandleObject`) and the debounce reset.
   */
  method React(rules: seq<Rule>, movements: map<string, seq<Line>>, frames: seq<string>, cursor: nat,
               clearReads: nat, stopAt: nat, checks: nat, arm: JointTable)
    returns (events: seq<Event>, phase: Option<Phase>, reset: bool, next: nat, checksAfter: nat, armAfter: JointTable)
    requires 1 <= cursor <= |frames|
    ensures var answer := frames[cursor - 1];
      SplitPair(answer).None? ==>
        events == [] && phase.None? && !reset && next == cursor && checksAfter == checks && armAfter == arm
    ensures var answer := frames[cursor - 1];
      SplitPair(answer).Some? && Decide(rules, answer).None? ==>
        events == [] && phase.None? && reset && next == cursor && checksAfter == checks && armAfter == arm
    ensures var answer := frames[cursor - 1];
      Decide(rules, answer).Some? ==>
        var rule := Decide(rules, answer).value;
        var mv := MovementOf(rule, movements, stopAt, checks, arm);
        reset && phase == Some(Handle(cursor - 1, rule, mv.0)) && events == PhaseEvents(phase.value) &&
        next == ClearEnd(frames, cursor, clearReads) && checksAfter == mv.1 && armAfter == mv.2
  {
    var answer := frames[cursor - 1];
    events, phase, reset, next, checksAfter, armAfter := [], None, false, cursor, checks, arm;
    match SplitPair(answer)
    case None =>
      // ValueError: logged; the count and the last label are kept.
    case Some((shape, colour)) =>
      reset := true;
      match FirstMatch(rules, shape, colour)
      case None =>
        // No rule for this object: forget it, leave the belt running.
      case Some(i) =>
        var movement;
        events, movement, next, checksAfter, armAfter :=
          HandleObject(rules[i], movements, frames, cursor, clearReads, stopAt, checks, arm);
        phase := Some(Handle(cursor - 1, rules[i], movement));
  }

  /**
   * One pass of the detection loop: read the stop flag, then a frame; an
   * empty or preliminary answer waits, a consistent one is reacted to (see
   * `React`). `done` says the loop ends here: the flag was seen set or the
   * camera read failed.
   */
  method Pass(rules: seq<Rule>, movements: map<string, seq<Line>>, frames: seq<string>, clearReads: nat,
              stopAt: nat, s: LoopState)
    returns (done: bool, events: seq<Event>, phase: Option<Phase>, next: LoopState)
    requires s.cursor <= |frames|
    ensures done <==> s.checks >= stopAt || s.cursor == |frames|
    ensures !done ==> NextPass(rules, movements, frames, clearReads, stopAt, s) == Some((phase, next))
    ensures events == if phase.Some? then PhaseEvents(phase.value) else []
  {
    events, phase, next := [], None, s;
    done := s.checks >= stopAt;
    if done {
      return;
    }
    if s.cursor == |frames| {
      done := true;  // cap.read() failed
      return;
    }
    var answer := frames[s.cursor];
    var d := Observe(s.d, answer);
    var checks := s.checks + 1;
    if answer == EMPTY || d.count < CONSISTENCY_THRESHOLD {
      events, phase := [Sleep(POLL_WAIT)], Some(Wait);
      next := LoopState(s.cursor + 1, d, checks, s.arm);
    } else {
      var reset, cursor, armAfter;
      events, phase, reset, cursor, checks, armAfter :=
        React(rules, movements, frames, s.cursor + 1, clearReads, stopAt, checks, s.arm);
      next := LoopState(cursor, if reset then INITIAL else d, checks, armAfter);
    }
  }

  /**
   * The detection loop of `iniciar_ejecucion`, run while the stop flag is
   * clear and the camera delivers frames; it returns what it did between the
   * initial start of the belt and the final stop.
   */
  method DetectionLoop(rules: seq<Rule>, movements: map<string, seq<Line>>, frames: seq<string>,
                       clearReads: nat, stopAt: nat, arm: JointTable)
    returns (events: seq<Event>)
    ensures events == Flatten(LoopPhases(rules, movements, frames, clearReads, stopAt, arm))
  {
    events := [];
    ghost var phases: seq<Phase> := [];
    ghost var total := LoopPhases(rules, movements, frames, clearReads, stopAt, arm);
    var state := LoopState(0, INITIAL, 0, arm);
    while true
      invariant state.cursor <= |frames|
      invariant phases + LoopFrom(rules, movements, frames, clearReads, stopAt, state) == total
      invariant events == Flatten(phases)
      decreases |frames| - state.cursor
    {
      var done, more, phase, next;
      done, more, phase, next := Pass(rules, movements, frames, clearReads, stopAt, state);
      if done {
        LoopFromDone(rules, movements, frames, clearReads, stopAt, state);
        assert phases + [] == phases;
        break;
      }
      LoopFromUnfold(rules, movements, frames, clearReads, stopAt, state, phase, next);
      if phase.Some? {
        FlattenSnoc(phases, phase.value);
        phases := phases + [phase.value];
      } else {
        assert events + more == events;
      }
      events, state := events + more, next;
    }
  }

  /**
   * `iniciar_ejecucion`. `beltReady` says whether the conveyor exists with an
   * open connection; `logic` is the rule file (`None` when reading it raises);
   * `movements` the movement files on disk by name; `frames` the classifier's
   * answers for successive camera reads (a read past the end fails);
   * `clearReads` the frames the clearing window drains; `arm` the arm's angle
   * table at the start. Whatever happens inside, the last command is a stop.
   */
  method RunExecution(beltReady: bool, logic: Option<seq<Rule>>, movements: map<string, seq<Line>>,
                      frames: seq<string>, clearReads: nat, stopAt: nat, arm: JointTable)
    returns (trace: seq<Event>)
    ensures !beltReady ==> trace == []
    ensures beltReady && logic.None? ==> trace == [Belt(Conveyor.ACTIVATE), Belt(Conveyor.DEACTIVATE)]
    ensures beltReady && logic.Some? ==>
      trace == [Belt(Conveyor.ACTIVATE)] + Flatten(LoopPhases(logic.value, movements, frames, clearReads, stopAt, arm)) +
               [Belt(Conveyor.DEACTIVATE)]
  {
    if !beltReady {
      // The belt is missing or its port is closed: not a single command is sent.
      return [];
    }
    var body: seq<Event> := [];
    if logic.Some? {
      body := DetectionLoop(logic.value, movements, frames, clearReads, stopAt, arm);
    }
    trace := [Belt(Conveyor.ACTIVATE)] + body + [Belt(Conveyor.DEACTIVATE)];
  }

  /** The number of objects acted on. */
  function Handled(phases: seq<Phase>): nat {
    if phases == [] then 0
    else Handled(phases[..|phases| - 1]) + (if phases[|phases| - 1].Handle? then 1 else 0)
  }

  /**
   * Per object acted on, the belt is stopped once and restarted once and five
   * verification frames are taken; nothing else touches the belt.
   */
  lemma {:induction false} FlattenCounts(phases: seq<Phase>)
    requires forall i :: 0 <= i < |phases| && phases[i].Handle? ==> MovementOnly(phases[i].movement)
    ensures multiset(Flatten(phases))[Belt(Conveyor.DEACTIVATE)] == Handled(phases)
    ensures multiset(Flatten(phases))[Belt(Conveyor.ACTIVATE)] == Handled(phases)
    ensures multiset(Flatten(phases))[Sample] == VERIFY_SAMPLES * Handled(phases)
  {
    if phases != [] {
      var init := phases[..|phases| - 1];
      var last := phases[|phases| - 1];
      assert forall i :: 0 <= i < |init| ==> init[i] == phases[i];
      FlattenCounts(init);
      PhaseCounts(last);
      assert Flatten(phases) == Flatten(init) + PhaseEvents(last);
      PairCounts(Flatten(init), PhaseEvents(last));
    }
  }

  /**
   * Over a whole detection loop, the belt is stopped once and restarted once
   * per object acted on, with five verification samples each.
   */
  lemma LoopCounts(rules: seq<Rule>, movements: map<string, seq<Line>>, frames: seq<string>, clearReads: nat,
                   stopAt: nat, arm: JointTable)
    ensures var phases := LoopPhases(rules, movements, frames, clearReads, stopAt, arm);
      var m := multiset(Flatten(phases));
      m[Belt(Conveyor.DEACTIVATE)] == Handled(phases) && m[Belt(Conveyor.ACTIVATE)] == Handled(phases) &&
      m[Sample] == VERIFY_SAMPLES * Handled(phases)
  {
    var phases := LoopPhases(rules, movements, frames, clearReads, stopAt, arm);
    LoopSound(rules, movements, frames, clearReads, stopAt, arm);
    forall i | 0 <= i < |phases| && phases[i].Handle?
      ensures MovementOnly(phases[i].movement)
    {
      assert phases[i] in phases;
    }
    FlattenCounts(phases);
  }

  /** The belt commands and samples of one pass of the loop. */
  lemma PhaseCounts(p: Phase)
    requires p.Handle? ==> MovementOnly(p.movement)
    ensures var m := multiset(PhaseEvents(p)); var h := if p.Handle? then 1 else 0;
      m[Belt(Conveyor.DEACTIVATE)] == h && m[Belt(Conveyor.ACTIVATE)] == h && m[Sample] == VERIFY_SAMPLES * h
  {
    if p.Handle? {
      MovementCounts(p.movement);
      AfterMovementCounts();
      ConcatCounts([Belt(Conveyor.DEACTIVATE)], p.movement, AfterMovement());
    }
  }

  /** A movement neither touches the belt nor samples a frame. */
  lemma MovementCounts(mv: seq<Event>)
    requires MovementOnly(mv)
    ensures var m := multiset(mv); m[Belt(Conveyor.DEACTIVATE)] == 0 && m[Belt(Conveyor.ACTIVATE)] == 0 && m[Sample] == 0
  {
    assert Belt(Conveyor.DEACTIVATE) !in mv && Belt(Conveyor.ACTIVATE) !in mv && Sample !in mv by {
      assert forall i :: 0 <= i < |mv| ==> mv[i].Move? || mv[i].Sleep?;
    }
  }

  /** The events of two consecutive parts, counted part by part. */
  lemma PairCounts(a: seq<Event>, b: seq<Event>)
    ensures multiset(a + b) == multiset(a) + multiset(b)
  {
  }

  /** The events of three consecutive parts, counted part by part. */
  lemma ConcatCounts(a: seq<Event>, b: seq<Event>, c: seq<Event>)
    ensures multiset(a + b + c) == multiset(a) + multiset(b) + multiset(c)
  {
  }

  lemma AfterMovementCounts()
    ensures var m := multiset(AfterMovement());
      m[Belt(Conveyor.DEACTIVATE)] == 0 && m[Belt(Conveyor.ACTIVATE)] == 1 && m[Sample] == VERIFY_SAMPLES
  {
    var v := VerifyEvents(VERIFY_SAMPLES);
    VerifyEventsCounts(VERIFY_SAMPLES);
    ConcatCounts([Belt(Conveyor.ACTIVATE), Clear], v, [Sleep(PAUSE_AFTER_OBJECT)]);
  }

  /** The verification samples hold `n` frames and no belt command. */
  lemma {:induction false} VerifyEventsCounts(n: nat)
    ensures var m := multiset(VerifyEvents(n));
      m[Sample] == n && m[Belt(Conveyor.ACTIVATE)] == 0 && m[Belt(Conveyor.DEACTIVATE)] == 0
  {
    if n > 0 {
      VerifyEventsCounts(n - 1);
      assert VerifyEvents(n) == VerifyEvents(n - 1) + [Sample, Sleep(SAMPLE_WAIT)];
      PairCounts(VerifyEvents(n - 1), [Sample, Sleep(SAMPLE_WAIT)]);
    }
  }

  /** `stop_execution`, the flag the control surface raises. */
  class StopFlag {
    var requested: bool

    constructor ()
      ensures !requested
    {
      requested := false;
    }

    /** `detener_ejecucion`. */
    method Request()
      modifies this
      ensures requested
    {
      requested := true;
    }
  }
}
