/**
 * `modulos/generador_trayectoria.py`: a Cartesian path of the requested
 * kind, then the inverse kinematics of every point, dropping the points it
 * cannot solve.
 */
module TrajectoryGenerator {
  import opened Wrappers
  import opened RealMath

  /** A Cartesian pose: position and roll, pitch, yaw. */
  datatype Pose6 = Pose6(x: real, y: real, z: real, roll: real, pitch: real, yaw: real)

  /** Why `generar_trayectoria` raises instead of returning. */
  datatype PathError =
    | UnknownKind      // the `ValueError` for a kind other than the four
    | MissingPoint     // the `IndexError` when the kind needs more points than given

  /**
   * What the generator uses but does not define: the inverse kinematics it
   * imports (absent from its module), the circumradius of three points, and
   * the cubic-spline resampling.
   */
  datatype Solvers = Solvers(
    ik: Pose6 -> Option<seq<real>>,
    radius: (Pose6, Pose6, Pose6) -> real,
    spline: (seq<Pose6>, nat) -> seq<Pose6>)

  /** Pose `i` of `interpolacion_lineal`: every channel by `np.linspace`. */
  function LinearPoint(p1: Pose6, p2: Pose6, n: nat, i: nat): Pose6
    requires i < n
  {
    Pose6(LinspaceAt(p1.x, p2.x, n, i), LinspaceAt(p1.y, p2.y, n, i), LinspaceAt(p1.z, p2.z, n, i),
          LinspaceAt(p1.roll, p2.roll, n, i), LinspaceAt(p1.pitch, p2.pitch, n, i), LinspaceAt(p1.yaw, p2.yaw, n, i))
  }

  /** `interpolacion_lineal`: `n` poses evenly spaced from `p1` to `p2`. */
  function LinearInterpolation(p1: Pose6, p2: Pose6, n: nat): (path: seq<Pose6>)
    ensures |path| == n
    ensures forall i :: 0 <= i < n ==> path[i] == LinearPoint(p1, p2, n, i)
  {
    seq(n, i requires 0 <= i < n => LinearPoint(p1, p2, n, i))
  }

  /** The linear path starts exactly at `p1` and, with two or more poses, ends exactly at `p2`, on all six channels. */
  lemma LinearEndpoints(p1: Pose6, p2: Pose6, n: nat)
    requires n >= 1
    ensures LinearInterpolation(p1, p2, n)[0] == p1
    ensures n >= 2 ==> LinearInterpolation(p1, p2, n)[n - 1] == p2
  {
    LinspaceEnds(p1.x, p2.x, n);
    LinspaceEnds(p1.y, p2.y, n);
    LinspaceEnds(p1.z, p2.z, n);
    LinspaceEnds(p1.roll, p2.roll, n);
    LinspaceEnds(p1.pitch, p2.pitch, n);
    LinspaceEnds(p1.yaw, p2.yaw, n);
  }

  /** The centroid of the three points' positions. */
  function Centroid(p1: Pose6, p2: Pose6, p3: Pose6): (real, real, real) {
    ((p1.x + p2.x + p3.x) / 3.0, (p1.y + p2.y + p3.y) / 3.0, (p1.z + p2.z + p3.z) / 3.0)
  }

  /**
   * Pose `i` of `interpolacion_circular`: at angle linspace(0, pi) around the
   * centroid with the given radius, at the centroid's height, with `p1`'s
   * orientation.
   */
  function ArcPoint(m: Math, p1: Pose6, p2: Pose6, p3: Pose6, radius: real, n: nat, i: nat): Pose6
    requires i < n
  {
    var c := Centroid(p1, p2, p3);
    var angle := LinspaceAt(0.0, PI, n, i);
    Pose6(c.0 + radius * m.cos(angle), c.1 + radius * m.sin(angle), c.2, p1.roll, p1.pitch, p1.yaw)
  }

  /** The whole arc, point by point. */
  function Arc(m: Math, p1: Pose6, p2: Pose6, p3: Pose6, radius: real, n: nat): (path: seq<Pose6>)
    ensures |path| == n
  {
    seq(n, i requires 0 <= i < n => ArcPoint(m, p1, p2, p3, radius, n, i))
  }

  /**
   * The loop of `interpolacion_circular`, with the circumradius supplied by
   * the caller: one pose per angle, each keeping `p1`'s roll, pitch and yaw
   * and the centroid's height.
   */
  method CircularInterpolation(m: Math, p1: Pose6, p2: Pose6, p3: Pose6, radius: real, n: nat)
    returns (path: seq<Pose6>)
    ensures path == Arc(m, p1, p2, p3, radius, n)
    ensures forall i :: 0 <= i < n ==>
      path[i].z == Centroid(p1, p2, p3).2 &&
      (path[i].roll, path[i].pitch, path[i].yaw) == (p1.roll, p1.pitch, p1.yaw)
  {
    path := [];
    for i := 0 to n
      invariant |path| == i
      invariant forall j :: 0 <= j < i ==> path[j] == ArcPoint(m, p1, p2, p3, radius, n, j)
    {
      path := path + [ArcPoint(m, p1, p2, p3, radius, n, i)];
    }
  }

  /** Every arc point lies on the horizontal circle of that radius around the centroid. */
  lemma ArcOnCircle(m: Math, p1: Pose6, p2: Pose6, p3: Pose6, radius: real, n: nat, i: nat)
    requires Sound(m) && i < n
    ensures var p, c := ArcPoint(m, p1, p2, p3, radius, n, i), Centroid(p1, p2, p3);
      (p.x - c.0) * (p.x - c.0) + (p.y - c.1) * (p.y - c.1) == radius * radius
  {
    var angle := LinspaceAt(0.0, PI, n, i);
    var co, si := m.cos(angle), m.sin(angle);
    assert co * co + si * si == 1.0;
    assert (radius * co) * (radius * co) + (radius * si) * (radius * si) == radius * radius * (co * co + si * si);
  }

  /**
   * The Cartesian path `generar_trayectoria` builds before solving: 'lineal'
   * reads the first two points, 'circular' the first three, 'spline' all of
   * them, and 'ptp' passes the points through unchanged.
   */
  function Path(m: Math, solvers: Solvers, kind: string, points: seq<Pose6>, n: nat): Result<seq<Pose6>, PathError> {
    if kind == "lineal" then
      if |points| < 2 then Err(MissingPoint) else Ok(LinearInterpolation(points[0], points[1], n))
    else if kind == "circular" then
      if |points| < 3 then Err(MissingPoint)
      else Ok(Arc(m, points[0], points[1], points[2], solvers.radius(points[0], points[1], points[2]), n))
    else if kind == "spline" then Ok(solvers.spline(points, n))
    else if kind == "ptp" then Ok(points)
    else Err(UnknownKind)
  }

  /** The solutions of the solvable points of `path`, in order; unsolvable points are dropped. */
  function SolveAll(ik: Pose6 -> Option<seq<real>>, path: seq<Pose6>): (r: seq<seq<real>>)
    ensures |r| <= |path|
  {
    if path == [] then []
    else
      var rest := SolveAll(ik, path[..|path| - 1]);
      match ik(path[|path| - 1])
      case None => rest
      case Some(angles) => rest + [angles]
  }

  /**
   * `generar_trayectoria`: the kind's path, then the solvable points' IK
   * solutions in path order.
   */
  method Generate(m: Math, solvers: Solvers, kind: string, points: seq<Pose6>, n: nat)
    returns (r: Result<seq<seq<real>>, PathError>)
    ensures Path(m, solvers, kind, points, n).Err? ==> r == Err(Path(m, solvers, kind, points, n).error)
    ensures Path(m, solvers, kind, points, n).Ok? ==> r == Ok(SolveAll(solvers.ik, Path(m, solvers, kind, points, n).value))
  {
    var path: seq<Pose6>;
    if kind == "lineal" {
      if |points| < 2 {
        return Err(MissingPoint);
      }
      path := LinearInterpolation(points[0], points[1], n);
    } else if kind == "circular" {
      if |points| < 3 {
        return Err(MissingPoint);
      }
      path := CircularInterpolation(m, points[0], points[1], points[2], solvers.radius(points[0], points[1], points[2]), n);
    } else if kind == "spline" {
      path := solvers.spline(points, n);
    } else if kind == "ptp" {
      path := points;
    } else {
      return Err(UnknownKind);
    }
    assert Path(m, solvers, kind, points, n) == Ok(path);
    var angles: seq<seq<real>> := [];
    for i := 0 to |path|
      invariant angles == SolveAll(solvers.ik, path[..i])
    {
      assert path[..i + 1][..i] == path[..i];
      var solution := solvers.ik(path[i]);
      if solution.Some? {
        angles := angles + [solution.value];
      }
    }
    assert path[..|path|] == path;
    return Ok(angles);
  }

  /** When every point is solvable, nothing is dropped: the i-th output is the i-th point's solution. */
  lemma {:induction false} SolveAllComplete(ik: Pose6 -> Option<seq<real>>, path: seq<Pose6>)
    requires forall i :: 0 <= i < |path| ==> ik(path[i]).Some?
    ensures |SolveAll(ik, path)| == |path|
    ensures forall i :: 0 <= i < |path| ==> SolveAll(ik, path)[i] == ik(path[i]).value
  {
    if path != [] {
      var init := path[..|path| - 1];
      assert forall i :: 0 <= i < |init| ==> init[i] == path[i];
      SolveAllComplete(ik, init);
    }
  }

  /** Every output is the solution of some point of the path. */
  lemma {:induction false} SolveAllSound(ik: Pose6 -> Option<seq<real>>, path: seq<Pose6>, j: nat)
    requires j < |SolveAll(ik, path)|
    ensures exists i :: 0 <= i < |path| && ik(path[i]) == Some(SolveAll(ik, path)[j])
  {
    var init := path[..|path| - 1];
    var rest := SolveAll(ik, init);
    if j < |rest| {
      SolveAllSound(ik, init, j);
      var i :| 0 <= i < |init| && ik(init[i]) == Some(rest[j]);
      assert path[i] == init[i];
    } else {
      assert ik(path[|path| - 1]) == Some(SolveAll(ik, path)[j]);
    }
  }

  /** The positions of the solvable points of the path, in increasing order. */
  function SolvedIndices(ik: Pose6 -> Option<seq<real>>, path: seq<Pose6>): seq<nat> {
    if path == [] then []
    else SolvedIndices(ik, path[..|path| - 1]) + (if ik(path[|path| - 1]).Some? then [|path| - 1] else [])
  }

  /**
   * The output keeps path order and drops only unsolvable points: the t-th
   * output is the solution of the point at the t-th solvable position, the
   * positions strictly increase, and every solvable position is one of them.
   */
  lemma {:induction false} SolveAllOrder(ik: Pose6 -> Option<seq<real>>, path: seq<Pose6>)
    ensures var idx, r := SolvedIndices(ik, path), SolveAll(ik, path);
      |idx| == |r| &&
      (forall t :: 0 <= t < |idx| ==> idx[t] < |path| && ik(path[idx[t]]) == Some(r[t])) &&
      (forall t, u :: 0 <= t < u < |idx| ==> idx[t] < idx[u]) &&
      (forall i :: 0 <= i < |path| && ik(path[i]).Some? ==> i in idx)
  {
    if path != [] {
      var init := path[..|path| - 1];
      SolveAllOrder(ik, init);
      var idx, r := SolvedIndices(ik, init), SolveAll(ik, init);
      var last := |path| - 1;
      assert forall i :: 0 <= i < |init| ==> path[i] == init[i];
      if ik(path[last]).Some? {
        assert SolvedIndices(ik, path) == idx + [last] && SolveAll(ik, path) == r + [ik(path[last]).value];
      } else {
        assert SolvedIndices(ik, path) == idx && SolveAll(ik, path) == r;
      }
    }
  }

  /** The output has one entry per solvable point, so a dropped point shortens it. */
  lemma {:induction false} SolveAllDrops(ik: Pose6 -> Option<seq<real>>, path: seq<Pose6>, k: nat)
    requires k < |path| && ik(path[k]).None?
    ensures |SolveAll(ik, path)| < |path|
  {
    var init := path[..|path| - 1];
    if k < |init| {
      assert init[k] == path[k];
      SolveAllDrops(ik, init, k);
    }
  }
}
