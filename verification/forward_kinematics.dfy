/**
 * The forward kinematics of `modulos/cinematica_directa.py`: one standard
 * Denavit-Hartenberg transform per link, chained from the identity, and the
 * tool pose read off the final homogeneous matrix.
 */
module ForwardKinematics {
  import opened Wrappers
  import opened RealMath

  /** A row or column of a 4x4 homogeneous matrix. */
  datatype Vec4 = Vec4(x0: real, x1: real, x2: real, x3: real)

  /** A 4x4 matrix, row by row. */
  datatype Mat4 = Mat4(r0: Vec4, r1: Vec4, r2: Vec4, r3: Vec4)

  /** The bottom row every rigid transform has. */
  const HOMOGENEOUS: Vec4 := Vec4(0.0, 0.0, 0.0, 1.0)

  /** `np.eye(4)`. */
  const IDENTITY: Mat4 := Mat4(Vec4(1.0, 0.0, 0.0, 0.0), Vec4(0.0, 1.0, 0.0, 0.0),
                               Vec4(0.0, 0.0, 1.0, 0.0), HOMOGENEOUS)

  function Dot(u: Vec4, v: Vec4): real {
    u.x0 * v.x0 + u.x1 * v.x1 + u.x2 * v.x2 + u.x3 * v.x3
  }

  function Column(b: Mat4, j: nat): Vec4
    requires j < 4
  {
    match j
    case 0 => Vec4(b.r0.x0, b.r1.x0, b.r2.x0, b.r3.x0)
    case 1 => Vec4(b.r0.x1, b.r1.x1, b.r2.x1, b.r3.x1)
    case 2 => Vec4(b.r0.x2, b.r1.x2, b.r2.x2, b.r3.x2)
    case _ => Vec4(b.r0.x3, b.r1.x3, b.r2.x3, b.r3.x3)
  }

  /** The row vector `u` times the matrix `b`. */
  function RowTimes(u: Vec4, b: Mat4): Vec4 {
    Vec4(Dot(u, Column(b, 0)), Dot(u, Column(b, 1)), Dot(u, Column(b, 2)), Dot(u, Column(b, 3)))
  }

  /** `np.dot` on two 4x4 matrices. */
  function MatMul(a: Mat4, b: Mat4): Mat4 {
    Mat4(RowTimes(a.r0, b), RowTimes(a.r1, b), RowTimes(a.r2, b), RowTimes(a.r3, b))
  }

  /** One row of `dh_params`: angles in degrees, lengths in millimetres. */
  datatype DhLink = DhLink(theta: real, d: real, a: real, alpha: real)

  /** `dh_params`: the five links, base to tool. */
  const DH_PARAMS: seq<DhLink> := [
    DhLink(0.0, 86.65, 0.0, 90.0),
    DhLink(0.0, 0.0, 120.0, 0.0),
    DhLink(-90.0, 0.0, 115.48, 0.0),
    DhLink(0.0, 0.0, 0.0, 90.0),
    DhLink(-90.0, 161.74, 0.0, 0.0)
  ]

  /**
   * The standard DH transform Rz(theta) Tz(d) Tx(a) Rx(alpha), given the
   * cosines and sines of its two angles.
   */
  function DhTransform(ct: real, st: real, ca: real, sa: real, d: real, a: real): Mat4 {
    Mat4(Vec4(ct, -st * ca, st * sa, a * ct),
         Vec4(st, ct * ca, -ct * sa, a * st),
         Vec4(0.0, sa, ca, d),
         HOMOGENEOUS)
  }

  /**
   * `dh_matrix`, angles in degrees. Its bottom row is homogeneous and its
   * translation column is (a cos theta, a sin theta, d).
   */
  function DhMatrix(m: Math, theta: real, d: real, a: real, alpha: real): (t: Mat4)
    ensures t.r3 == HOMOGENEOUS
    ensures Column(t, 3) == Vec4(a * m.cos(Radians(theta)), a * m.sin(Radians(theta)), d, 1.0)
  {
    var th := Radians(theta);
    var al := Radians(alpha);
    DhTransform(m.cos(th), m.sin(th), m.cos(al), m.sin(al), d, a)
  }

  /** The squared length of the spatial part of a column. */
  function SpatialNorm(c: Vec4): real {
    c.x0 * c.x0 + c.x1 * c.x1 + c.x2 * c.x2
  }

  /** The rotation part of a DH transform has unit columns. */
  lemma DhRotationUnit(m: Math, theta: real, d: real, a: real, alpha: real)
    requires Sound(m)
    ensures var t := DhMatrix(m, theta, d, a, alpha);
      SpatialNorm(Column(t, 0)) == 1.0 && SpatialNorm(Column(t, 1)) == 1.0 && SpatialNorm(Column(t, 2)) == 1.0
  {
    var th := Radians(theta);
    var al := Radians(alpha);
    UnitColumns(m.cos(th), m.sin(th), m.cos(al), m.sin(al), d, a);
  }

  /** With both (cosine, sine) pairs on the unit circle, the rotation columns have length 1. */
  lemma UnitColumns(ct: real, st: real, ca: real, sa: real, d: real, a: real)
    requires ct * ct + st * st == 1.0 && ca * ca + sa * sa == 1.0
    ensures var t := DhTransform(ct, st, ca, sa, d, a);
      SpatialNorm(Column(t, 0)) == 1.0 && SpatialNorm(Column(t, 1)) == 1.0 && SpatialNorm(Column(t, 2)) == 1.0
  {
    assert (-st * ca) * (-st * ca) + (ct * ca) * (ct * ca) == (ct * ct + st * st) * (ca * ca);
    assert (st * sa) * (st * sa) + (-ct * sa) * (-ct * sa) == (ct * ct + st * st) * (sa * sa);
  }

  /** Link `i`'s transform for the joint angles `q`: the table's offset plus `q[i]`. */
  function LinkMatrix(m: Math, q: seq<real>, i: nat): Mat4
    requires i < |DH_PARAMS| && i < |q|
  {
    var link := DH_PARAMS[i];
    DhMatrix(m, link.theta + q[i], link.d, link.a, link.alpha)
  }

  /** `T` after the first `n` links: the identity times link 0, ..., link n-1. */
  function Chain(m: Math, q: seq<real>, n: nat): Mat4
    requires n <= |DH_PARAMS| && n <= |q|
  {
    if n == 0 then IDENTITY else MatMul(Chain(m, q, n - 1), LinkMatrix(m, q, n - 1))
  }

  /** The pose `forward_kinematics` reports, before rounding; angles in degrees. */
  datatype Pose = Pose(x: real, y: real, z: real, roll: real, pitch: real, yaw: real)

  /** Position from the translation column; roll, pitch, yaw from the rotation part. */
  function PoseOf(m: Math, t: Mat4): (p: Pose)
    ensures (p.x, p.y, p.z) == (Column(t, 3).x0, Column(t, 3).x1, Column(t, 3).x2)
  {
    Pose(t.r0.x3, t.r1.x3, t.r2.x3,
         Degrees(m.atan2(t.r2.x1, t.r2.x2)), Degrees(m.asin(-t.r2.x0)), Degrees(m.atan2(t.r1.x0, t.r0.x0)))
  }

  /**
   * `forward_kinematics`: fewer than five joint angles raise (an index
   * error, here `None`); otherwise the pose of the product of the five link
   * transforms, in table order.
   */
  method Forward(m: Math, q: seq<real>) returns (r: Option<Pose>)
    ensures r.None? <==> |q| < |DH_PARAMS|
    ensures r.Some? ==> r.value == PoseOf(m, Chain(m, q, |DH_PARAMS|))
  {
    if |q| < |DH_PARAMS| {
      return None;
    }
    var t := IDENTITY;
    for i := 0 to |DH_PARAMS|
      invariant t == Chain(m, q, i)
    {
      t := MatMul(t, LinkMatrix(m, q, i));
    }
    return Some(PoseOf(m, t));
  }

  /** Multiplying by a homogeneous transform keeps the homogeneous bottom row. */
  lemma BottomRowPreserved(a: Mat4, b: Mat4)
    requires a.r3 == HOMOGENEOUS && b.r3 == HOMOGENEOUS
    ensures MatMul(a, b).r3 == HOMOGENEOUS
  {
  }

  /** The identity is a left unit of the product, so the chain may start from it. */
  lemma IdentityLeft(b: Mat4)
    ensures MatMul(IDENTITY, b) == b
  {
  }

  /** Every partial chain, the final `T` included, keeps the bottom row [0, 0, 0, 1]. */
  lemma {:induction false} ChainHomogeneous(m: Math, q: seq<real>, n: nat)
    requires n <= |DH_PARAMS| && n <= |q|
    ensures Chain(m, q, n).r3 == HOMOGENEOUS
  {
    if n > 0 {
      ChainHomogeneous(m, q, n - 1);
      BottomRowPreserved(Chain(m, q, n - 1), LinkMatrix(m, q, n - 1));
    }
  }

  /** Only the first `n` joint angles influence the chain of `n` links. */
  lemma {:induction false} ChainReadsPrefix(m: Math, q1: seq<real>, q2: seq<real>, n: nat)
    requires n <= |DH_PARAMS| && n <= |q1| && n <= |q2|
    requires q1[..n] == q2[..n]
    ensures Chain(m, q1, n) == Chain(m, q2, n)
  {
    if n > 0 {
      assert q1[..n - 1] == q1[..n][..n - 1];
      assert q2[..n - 1] == q2[..n][..n - 1];
      assert q1[n - 1] == q1[..n][n - 1];
      assert q2[n - 1] == q2[..n][n - 1];
      ChainReadsPrefix(m, q1, q2, n - 1);
    }
  }

  /** A single link's chain is that link's transform. */
  lemma ChainOne(m: Math, q: seq<real>)
    requires 1 <= |q|
    ensures Chain(m, q, 1) == LinkMatrix(m, q, 0)
  {
    IdentityLeft(LinkMatrix(m, q, 0));
  }

  /**
   * The reported position is 161.74 mm along the z-axis of the fourth
   * link's frame from that frame's origin: the last link has a = 0.
   */
  lemma ToolOffset(m: Math, q: seq<real>)
    requires |DH_PARAMS| <= |q|
    ensures var t4, p := Chain(m, q, 4), PoseOf(m, Chain(m, q, 5));
      p.x == t4.r0.x2 * 161.74 + t4.r0.x3 &&
      p.y == t4.r1.x2 * 161.74 + t4.r1.x3 &&
      p.z == t4.r2.x2 * 161.74 + t4.r2.x3
  {
    var t4, link := Chain(m, q, 4), LinkMatrix(m, q, 4);
    assert Chain(m, q, 5) == MatMul(t4, link);
    assert DH_PARAMS[4] == DhLink(-90.0, 161.74, 0.0, 0.0);
    assert Column(link, 3) == Vec4(0.0, 0.0, 161.74, 1.0);
  }
}
