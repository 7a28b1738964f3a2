/**
 * The geometric inverse kinematics of `modulos/cinematica_inversa.py`: base
 * rotation, wrist centre, the shoulder-elbow-wrist triangle solved by the law
 * of cosines, and the mapping of the joint angles to servo degrees.
 */
module InverseKinematics {
  import opened Wrappers
  import opened RealMath

  /** Link lengths, in the file's units. */
  const L_BASE: real := 5.0
  const L_SHOULDER: real := 10.0
  const L_FOREARM: real := 8.0
  const L_WRIST: real := 3.0

  /** The wrist centre: the target moved back by `L_WRIST` along the pitch, in the base's azimuth. */
  function WristCentre(m: Math, x: real, y: real, z: real, pitch: real): (real, real, real) {
    var theta1 := m.atan2(y, x);
    var p := Radians(pitch);
    (x - L_WRIST * m.cos(p) * m.cos(theta1),
     y - L_WRIST * m.cos(p) * m.sin(theta1),
     z - L_WRIST * m.sin(p))
  }

  function SumOfSquares(a: real, b: real, h: real): real {
    a * a + b * b + h * h
  }

  /** The wrist centre in the arm's vertical plane: radial distance `r` and height `h` above the shoulder. */
  function WristPlane(m: Math, x: real, y: real, z: real, pitch: real): (real, real) {
    var w := WristCentre(m, x, y, z, pitch);
    (Hypot(m, w.0, w.1), w.2 - L_BASE)
  }

  /** `c`: the distance from the shoulder to the wrist centre, as computed with `sqrt`. */
  function Reach(m: Math, x: real, y: real, z: real, pitch: real): real {
    var rh := WristPlane(m, x, y, z, pitch);
    Hypot(m, rh.0, rh.1)
  }

  /** The squared shoulder-to-wrist-centre distance, without any root. */
  function ReachSquared(m: Math, x: real, y: real, z: real, pitch: real): real {
    var w := WristCentre(m, x, y, z, pitch);
    SumOfSquares(w.0, w.1, w.2 - L_BASE)
  }

  /** The law-of-cosines value for the shoulder's inner angle, before clamping. */
  function CosBeta(c: real): real
    requires c != 0.0
  {
    (L_SHOULDER * L_SHOULDER + c * c - L_FOREARM * L_FOREARM) / (2.0 * L_SHOULDER * c)
  }

  /** The law-of-cosines value for the elbow's inner angle, before clamping. */
  function CosGamma(c: real): real {
    (L_SHOULDER * L_SHOULDER + L_FOREARM * L_FOREARM - c * c) / (2.0 * L_SHOULDER * L_FOREARM)
  }

  /**
   * θ2, the shoulder angle in radians: the wrist centre's elevation seen from
   * the shoulder plus the triangle's inner angle at the shoulder.
   */
  function Shoulder(m: Math, x: real, y: real, z: real, pitch: real): real
    requires Reach(m, x, y, z, pitch) != 0.0
  {
    var rh := WristPlane(m, x, y, z, pitch);
    m.atan2(rh.1, rh.0) + m.acos(Clamp(CosBeta(Reach(m, x, y, z, pitch))))
  }

  /** θ3, the elbow angle in radians: the triangle's inner angle at the elbow minus π (0 for a stretched arm). */
  function Elbow(m: Math, x: real, y: real, z: real, pitch: real): real {
    m.acos(Clamp(CosGamma(Reach(m, x, y, z, pitch)))) - PI
  }

  /**
   * `calcular_angulos`. Nothing when the wrist centre is beyond the
   * stretched arm (c > 18), or when it sits on the shoulder (c = 0, where the
   * division raises and the handler returns None); otherwise four servo
   * angles: the base follows the target's azimuth, the shoulder and elbow
   * servos are offset from θ2 and θ3, and the wrist makes up the requested
   * pitch. Roll and yaw are not used.
   */
  function CalcAngles(m: Math, x: real, y: real, z: real, roll: real, pitch: real, yaw: real): (r: Option<seq<real>>)
    ensures r.None? <==> Reach(m, x, y, z, pitch) > L_SHOULDER + L_FOREARM || Reach(m, x, y, z, pitch) == 0.0
    ensures r.Some? ==> |r.value| == 4
    ensures r.Some? ==> r.value[0] == 90.0 + Degrees(m.atan2(y, x))
    ensures r.Some? ==> r.value[1] == 90.0 - Degrees(Shoulder(m, x, y, z, pitch))
    ensures r.Some? ==> r.value[2] == 90.0 + Degrees(Elbow(m, x, y, z, pitch))
    ensures r.Some? ==> r.value[2] + r.value[3] - r.value[1] == 90.0 + pitch
  {
    var theta1 := m.atan2(y, x);
    var p := Radians(pitch);
    var c := Reach(m, x, y, z, pitch);
    if c > L_SHOULDER + L_FOREARM then None
    else if c == 0.0 then None
    else
      var theta2 := Shoulder(m, x, y, z, pitch);
      var theta3 := Elbow(m, x, y, z, pitch);
      var theta4 := p - (theta2 + theta3);
      DegreesOfRadians(pitch, theta2 + theta3, theta4);
      DegreesOfRadians(pitch, theta2, theta3);
      Some([90.0 + Degrees(theta1), 90.0 - Degrees(theta2), 90.0 + Degrees(theta3), 90.0 + Degrees(theta4)])
  }

  /**
   * On a reachable wrist centre (2 <= c <= 18) the two clamped cosines handed
   * to `acos` describe one triangle: the wrist centre's projection on the
   * upper arm, c·cos β, equals the upper arm plus the forearm's projection,
   * 10 − 8·cos γ.
   */
  lemma ElbowMeetsShoulder(c: real)
    requires 2.0 <= c <= 18.0
    ensures c * Clamp(CosBeta(c)) == L_SHOULDER - L_FOREARM * Clamp(CosGamma(c))
  {
    CosinesInRange(c);
    var n := L_SHOULDER * L_SHOULDER + c * c - L_FOREARM * L_FOREARM;
    assert c * (n / (2.0 * L_SHOULDER * c)) == n / (2.0 * L_SHOULDER);
  }

  /** Roll and yaw never influence the result. */
  lemma RollAndYawIgnored(m: Math, x: real, y: real, z: real, roll1: real, roll2: real, pitch: real, yaw1: real, yaw2: real)
    ensures CalcAngles(m, x, y, z, roll1, pitch, yaw1) == CalcAngles(m, x, y, z, roll2, pitch, yaw2)
  {
  }

  /** Two nested roots compared with a bound are the sum of three squares compared with its square. */
  lemma NestedRootCompare(m: Math, a: real, b: real, h: real, k: real)
    requires Sound(m) && k >= 0.0
    ensures Hypot(m, Hypot(m, a, b), h) > k <==> SumOfSquares(a, b, h) > k * k
    ensures Hypot(m, Hypot(m, a, b), h) == 0.0 <==> SumOfSquares(a, b, h) == 0.0
  {
    var r := Hypot(m, a, b);
    HypotCompare(m, a, b, k);
    HypotCompare(m, r, h, k);
  }

  /** `Reach` compared with a bound is `ReachSquared` compared with its square. */
  lemma ReachBySquares(m: Math, x: real, y: real, z: real, pitch: real, k: real)
    requires Sound(m) && k >= 0.0
    ensures Reach(m, x, y, z, pitch) > k <==> ReachSquared(m, x, y, z, pitch) > k * k
    ensures Reach(m, x, y, z, pitch) == 0.0 <==> ReachSquared(m, x, y, z, pitch) == 0.0
  {
    var w := WristCentre(m, x, y, z, pitch);
    NestedRootCompare(m, w.0, w.1, w.2 - L_BASE, k);
  }

  /**
   * The reachability test compares squared distances: no angles exactly when
   * the squared shoulder-to-wrist-centre distance exceeds 18² or is 0.
   */
  lemma ReachTest(m: Math, x: real, y: real, z: real, roll: real, pitch: real, yaw: real)
    requires Sound(m)
    ensures CalcAngles(m, x, y, z, roll, pitch, yaw).None? <==>
      ReachSquared(m, x, y, z, pitch) > 324.0 || ReachSquared(m, x, y, z, pitch) == 0.0
  {
    ReachBySquares(m, x, y, z, pitch, L_SHOULDER + L_FOREARM);
  }

  /** The wrist centre lies exactly `L_WRIST` away from the target. */
  lemma WristCentreDistance(m: Math, x: real, y: real, z: real, pitch: real)
    requires Sound(m)
    ensures var (wx, wy, wz) := WristCentre(m, x, y, z, pitch);
      (x - wx) * (x - wx) + (y - wy) * (y - wy) + (z - wz) * (z - wz) == L_WRIST * L_WRIST
  {
    var theta1 := m.atan2(y, x);
    var p := Radians(pitch);
    var cp, sp, ct, st := m.cos(p), m.sin(p), m.cos(theta1), m.sin(theta1);
    assert ct * ct + st * st == 1.0;
    assert cp * cp + sp * sp == 1.0;
    var k := L_WRIST * cp;
    assert (k * ct) * (k * ct) + (k * st) * (k * st) == k * k * (ct * ct + st * st);
    assert k * k == L_WRIST * L_WRIST * (cp * cp);
    assert (L_WRIST * sp) * (L_WRIST * sp) == L_WRIST * L_WRIST * (sp * sp);
  }

  /**
   * The clamps only matter for a wrist centre closer than 2 to the shoulder:
   * for 0 < c, both cosines already lie in [-1, 1] exactly when the triangle
   * with sides 10, 8 and c exists, that is 2 <= c <= 18.
   */
  lemma CosinesInRange(c: real)
    requires c > 0.0
    ensures -1.0 <= CosGamma(c) <= 1.0 <==> 2.0 <= c <= 18.0
    ensures -1.0 <= CosBeta(c) <= 1.0 <==> 2.0 <= c <= 18.0
  {
    SquareCompare(c, 2.0);
    SquareCompare(c, 18.0);
    var d := 2.0 * L_SHOULDER * c;
    DivAtMost(L_SHOULDER * L_SHOULDER + c * c - L_FOREARM * L_FOREARM, d, 1.0);
    DivAtLeast(L_SHOULDER * L_SHOULDER + c * c - L_FOREARM * L_FOREARM, d, -1.0);
    MulPositive(c, c);
    if 2.0 <= c <= 18.0 {
      MulNonNegative(c - 2.0, 18.0 - c);
      assert (c - 2.0) * (18.0 - c) == 20.0 * c - c * c - 36.0;
    } else if c < 2.0 {
      MulPositive(2.0 - c, 18.0 - c);
      assert (2.0 - c) * (18.0 - c) == c * c - 20.0 * c + 36.0;
    } else {
      MulPositive(c - 2.0, c - 18.0);
      assert (c - 2.0) * (c - 18.0) == c * c - 20.0 * c + 36.0;
      assert !(L_SHOULDER * L_SHOULDER + c * c - L_FOREARM * L_FOREARM <= 1.0 * d);
    }
  }
}
