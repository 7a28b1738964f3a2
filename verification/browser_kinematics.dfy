/**
 * The browser's local 5-DOF inverse kinematics (`solveIK_5DOF` in
 * `static/js/kinematics.js`), used for the live preview of a pose.
 */
module BrowserKinematics {
  import opened RealMath

  /** `ROBOT_GEOMETRY`, in millimetres. */
  const D1: real := 100.0
  const A2: real := 105.0
  const A3: real := 100.0
  const D5: real := 150.0

  /** The `{ angles, isValid }` object the solver returns. */
  datatype IkResult = IkResult(angles: seq<int>, isValid: bool)

  /** `Math.round`: the nearest integer, halves rounded up. */
  function JsRound(x: real): (r: int)
    ensures x - 0.5 < r as real <= x + 0.5
  {
    (x + 0.5).Floor
  }

  /** `a >= 0 && a <= 180` for every angle. */
  predicate InServoRange(angles: seq<int>) {
    forall i :: 0 <= i < |angles| ==> 0 <= angles[i] <= 180
  }

  /** The wrist centre in the arm's plane: `r_wc` and `z_wc`. */
  function WristCentre(m: Math, x: real, y: real, z: real, pitch: real): (real, real) {
    var p := Radians(pitch);
    (Hypot(m, x, y) - D5 * m.cos(p), z - D5 * m.sin(p) - D1)
  }

  /** `h`: the distance from the shoulder to the wrist centre. */
  function Hypotenuse(m: Math, x: real, y: real, z: real, pitch: real): real {
    var w := WristCentre(m, x, y, z, pitch);
    Hypot(m, w.0, w.1)
  }

  /** `r_wc² + z_wc²`, without any root. */
  function WristSquared(m: Math, x: real, y: real, z: real, pitch: real): real {
    var w := WristCentre(m, x, y, z, pitch);
    w.0 * w.0 + w.1 * w.1
  }

  /** `cos_alpha`, the shoulder's inner angle by the law of cosines. */
  function CosAlpha(h: real): real
    requires h != 0.0
  {
    (A2 * A2 + h * h - A3 * A3) / (2.0 * A2 * h)
  }

  /** `cos_beta`, the elbow's inner angle by the law of cosines. */
  function CosBeta(h: real): real {
    (A2 * A2 + A3 * A3 - h * h) / (2.0 * A2 * A3)
  }

  /**
   * The second guard: a cosine outside [-1, 1]. At h = 0 the division in
   * JavaScript yields an infinity, which fails the guard as well.
   */
  predicate OutOfTriangle(h: real) {
    h == 0.0 || Abs(CosAlpha(h)) > 1.0 || Abs(CosBeta(h)) > 1.0
  }

  /**
   * `theta2`, the shoulder: the elevation of the wrist centre plus the
   * shoulder's inner angle.
   */
  function Theta2(m: Math, x: real, y: real, z: real, pitch: real): real
    requires Hypotenuse(m, x, y, z, pitch) != 0.0
  {
    var w := WristCentre(m, x, y, z, pitch);
    m.atan2(w.1, w.0) + m.acos(CosAlpha(Hypotenuse(m, x, y, z, pitch)))
  }

  /** `theta3`, the elbow: minus the outer angle at the elbow. */
  function Theta3(m: Math, h: real): real {
    -1.0 * (PI - m.acos(CosBeta(h)))
  }

  /**
   * `solveIK_5DOF`. Beyond the stretched arm: five zeros, invalid. When the
   * triangle cannot close: no angles, invalid. Otherwise five rounded servo
   * angles, valid exactly when all lie in [0, 180]: base 90 + θ1, shoulder
   * 90 - θ2, elbow 90 + θ3, wrist 90 + (pitch - θ2 - θ3) and the roll passed
   * through. Shoulder, elbow and wrist therefore add up to the requested
   * pitch, up to the rounding of the three of them.
   */
  function SolveIK5Dof(m: Math, x: real, y: real, z: real, pitch: real, roll: real): (r: IkResult)
    ensures Hypotenuse(m, x, y, z, pitch) > A2 + A3 ==> r == IkResult([0, 0, 0, 0, 0], false)
    ensures Hypotenuse(m, x, y, z, pitch) <= A2 + A3 && OutOfTriangle(Hypotenuse(m, x, y, z, pitch)) ==>
      r == IkResult([], false)
    ensures Hypotenuse(m, x, y, z, pitch) <= A2 + A3 && !OutOfTriangle(Hypotenuse(m, x, y, z, pitch)) ==>
      |r.angles| == 5 && (r.isValid <==> InServoRange(r.angles)) &&
      r.angles[4] == JsRound(roll) &&
      r.angles[0] == JsRound(90.0 + Degrees(m.atan2(y, x))) &&
      r.angles[1] == JsRound(90.0 - Degrees(Theta2(m, x, y, z, pitch))) &&
      r.angles[2] == JsRound(90.0 + Degrees(Theta3(m, Hypotenuse(m, x, y, z, pitch)))) &&
      r.angles[3] == JsRound(90.0 + Degrees(Radians(pitch) - Theta2(m, x, y, z, pitch)
                                              - Theta3(m, Hypotenuse(m, x, y, z, pitch)))) &&
      -1.5 < (r.angles[2] + r.angles[3] - r.angles[1]) as real - (90.0 + pitch) < 1.5
  {
    var theta1 := m.atan2(y, x);
    var pitchRad := Radians(pitch);
    var h := Hypotenuse(m, x, y, z, pitch);
    if h > A2 + A3 then IkResult([0, 0, 0, 0, 0], false)
    else if OutOfTriangle(h) then IkResult([], false)
    else
      var theta2 := Theta2(m, x, y, z, pitch);
      var theta3 := Theta3(m, h);
      var theta4 := pitchRad - theta2 - theta3;
      DegreesOfRadians(pitch, theta2 + theta3, theta4);
      DegreesOfRadians(pitch, theta2, theta3);
      var angles := [JsRound(90.0 + Degrees(theta1)), JsRound(90.0 - Degrees(theta2)),
                     JsRound(90.0 + Degrees(theta3)), JsRound(90.0 + Degrees(theta4)), JsRound(roll)];
      IkResult(angles, InServoRange(angles))
  }

  /** `cos_beta` lies in [-1, 1] exactly when 5 <= h <= 205. */
  lemma CosBetaRange(h: real)
    requires h > 0.0
    ensures -1.0 <= CosBeta(h) <= 1.0 <==> A2 - A3 <= h <= A2 + A3
  {
    SquareCompare(5.0, h);
    SquareCompare(h, 205.0);
  }

  /** `cos_alpha` lies in [-1, 1] exactly when 5 <= h <= 205. */
  lemma CosAlphaRange(h: real)
    requires h > 0.0
    ensures -1.0 <= CosAlpha(h) <= 1.0 <==> A2 - A3 <= h <= A2 + A3
  {
    var d := 2.0 * A2 * h;
    var a := A2 * A2 + h * h - A3 * A3;
    DivAtMost(a, d, 1.0);
    DivAtLeast(a, d, -1.0);
    MulPositive(h, h);
    if h < 5.0 {
      MulPositive(5.0 - h, 205.0 - h);
      assert (5.0 - h) * (205.0 - h) == h * h - 210.0 * h + 1025.0;
      assert !(a <= 1.0 * d);
    } else if h <= 205.0 {
      MulNonNegative(h - 5.0, 205.0 - h);
      assert (h - 5.0) * (205.0 - h) == 210.0 * h - h * h - 1025.0;
    } else {
      MulPositive(h - 5.0, h - 205.0);
      assert (h - 5.0) * (h - 205.0) == h * h - 210.0 * h + 1025.0;
      assert !(a <= 1.0 * d);
    }
  }

  /**
   * Within reach, the triangle fails to close exactly when the wrist centre
   * is nearer than A2 - A3 = 5 to the shoulder.
   */
  lemma TriangleGuard(h: real)
    requires 0.0 <= h <= A2 + A3
    ensures OutOfTriangle(h) <==> h < A2 - A3
  {
    if h > 0.0 {
      CosAlphaRange(h);
      CosBetaRange(h);
    }
  }

  /** The two failures of the solver, told apart by `h` alone. */
  lemma Outcome(m: Math, x: real, y: real, z: real, pitch: real, roll: real)
    ensures var r, h := SolveIK5Dof(m, x, y, z, pitch, roll), Hypotenuse(m, x, y, z, pitch);
      (r == IkResult([0, 0, 0, 0, 0], false) <==> h > A2 + A3) &&
      (r.angles == [] <==> h <= A2 + A3 && OutOfTriangle(h))
  {
    assert InServoRange([0, 0, 0, 0, 0]);
  }

  /** Both bounds on a distance compare as the bounds on its square do. */
  lemma SquaresDecide(h: real, sq: real)
    requires h >= 0.0 && h * h == sq
    ensures h > A2 + A3 <==> sq > 205.0 * 205.0
    ensures h < A2 - A3 <==> sq < 5.0 * 5.0
  {
    SquareCompare(h, 205.0);
    SquareCompare(5.0, h);
  }

  /**
   * The reach test compares squared distances: the arm is out of reach
   * exactly when r_wc² + z_wc² > 205², and the triangle fails to close
   * exactly when r_wc² + z_wc² < 5²; in between the angles are computed.
   */
  lemma ReachBySquares(m: Math, x: real, y: real, z: real, pitch: real, roll: real)
    requires Sound(m)
    ensures SolveIK5Dof(m, x, y, z, pitch, roll) == IkResult([0, 0, 0, 0, 0], false) <==>
      WristSquared(m, x, y, z, pitch) > 205.0 * 205.0
    ensures SolveIK5Dof(m, x, y, z, pitch, roll).angles == [] <==>
      WristSquared(m, x, y, z, pitch) < 5.0 * 5.0
  {
    var w := WristCentre(m, x, y, z, pitch);
    var h := Hypotenuse(m, x, y, z, pitch);
    Outcome(m, x, y, z, pitch, roll);
    HypotCompare(m, w.0, w.1, 0.0);
    SquaresDecide(h, WristSquared(m, x, y, z, pitch));
    if h <= A2 + A3 {
      TriangleGuard(h);
    }
  }
}
