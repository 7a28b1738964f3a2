/**
 * `generar_trayectoria_lineal` in `modulos/trayectorias.py`: a straight line
 * in Cartesian space sampled at evenly spaced points, each solved by the
 * geometric inverse kinematics; one unreachable sample aborts the line.
 */
module Trajectories {
  import opened Wrappers
  import opened RealMath
  import opened InverseKinematics

  /** A Cartesian waypoint: position, wrist pitch and roll, gripper opening. */
  datatype Waypoint = Waypoint(x: real, y: real, z: real, pitch: real, roll: real, gripper: real)

  /** Sample `i` of `steps` on the segment, every channel by `np.linspace`. */
  function Sample(start: Waypoint, end: Waypoint, steps: nat, i: nat): Waypoint
    requires i < steps
  {
    Waypoint(LinspaceAt(start.x, end.x, steps, i), LinspaceAt(start.y, end.y, steps, i),
             LinspaceAt(start.z, end.z, steps, i), LinspaceAt(start.pitch, end.pitch, steps, i),
             LinspaceAt(start.roll, end.roll, steps, i), LinspaceAt(start.gripper, end.gripper, steps, i))
  }

  /** The inverse kinematics of sample `i`, always with yaw 0. */
  function SampleAngles(m: Math, start: Waypoint, end: Waypoint, steps: nat, i: nat): Option<seq<real>>
    requires i < steps
  {
    var w := Sample(start, end, steps, i);
    CalcAngles(m, w.x, w.y, w.z, w.roll, w.pitch, 0.0)
  }

  /** Some sample before `k` has no inverse kinematics solution. */
  predicate Blocked(m: Math, start: Waypoint, end: Waypoint, steps: nat, k: nat)
    requires k <= steps
  {
    exists i :: 0 <= i < k && SampleAngles(m, start, end, steps, i).None?
  }

  /**
   * The command for sample `j`: the four IK angles of the sample, then its
   * interpolated roll and gripper opening.
   */
  predicate RowFor(m: Math, start: Waypoint, end: Waypoint, steps: nat, j: nat, row: seq<real>)
    requires j < steps
  {
    var a := SampleAngles(m, start, end, steps, j);
    var w := Sample(start, end, steps, j);
    a.Some? && |row| == 6 && row[..4] == a.value && row[4] == w.roll && row[5] == w.gripper
  }

  /**
   * `generar_trayectoria_lineal`. `None` as soon as a sample is unreachable,
   * never a partial list; otherwise one six-servo command per sample (see
   * `RowFor`).
   */
  method GenerateLinear(m: Math, start: Waypoint, end: Waypoint, steps: nat) returns (r: Option<seq<seq<real>>>)
    ensures r.None? <==> Blocked(m, start, end, steps, steps)
    ensures r.Some? ==> |r.value| == steps
    ensures r.Some? ==> forall i :: 0 <= i < steps ==> RowFor(m, start, end, steps, i, r.value[i])
  {
    var path: seq<seq<real>> := [];
    for i := 0 to steps
      invariant |path| == i
      invariant !Blocked(m, start, end, steps, i)
      invariant forall j :: 0 <= j < i ==> RowFor(m, start, end, steps, j, path[j])
    {
      var w := Sample(start, end, steps, i);
      var angles := CalcAngles(m, w.x, w.y, w.z, w.roll, w.pitch, 0.0);
      if angles.None? {
        assert SampleAngles(m, start, end, steps, i).None?;
        return None;
      }
      var a := angles.value;
      var row := [a[0], a[1], a[2], a[3], w.roll, w.gripper];
      assert row[..4] == a;
      assert RowFor(m, start, end, steps, i, row);
      path := path + [row];
    }
    return Some(path);
  }

  /** The first sample is the start waypoint and, with two or more, the last is the end waypoint. */
  lemma SampleEnds(start: Waypoint, end: Waypoint, steps: nat)
    requires steps >= 1
    ensures Sample(start, end, steps, 0) == start
    ensures steps >= 2 ==> Sample(start, end, steps, steps - 1) == end
  {
    LinspaceEnds(start.x, end.x, steps);
    LinspaceEnds(start.y, end.y, steps);
    LinspaceEnds(start.z, end.z, steps);
    LinspaceEnds(start.pitch, end.pitch, steps);
    LinspaceEnds(start.roll, end.roll, steps);
    LinspaceEnds(start.gripper, end.gripper, steps);
  }

  /**
   * A successful line starts with the IK of the start waypoint and, with two
   * or more samples, ends with the IK of the end waypoint.
   */
  lemma LineEndpoints(m: Math, start: Waypoint, end: Waypoint, steps: nat, r: seq<seq<real>>)
    requires steps >= 2 && |r| == steps
    requires forall i :: 0 <= i < steps ==> RowFor(m, start, end, steps, i, r[i])
    ensures |r[0]| == 6 && |r[steps - 1]| == 6
    ensures CalcAngles(m, start.x, start.y, start.z, start.roll, start.pitch, 0.0) == Some(r[0][..4])
    ensures CalcAngles(m, end.x, end.y, end.z, end.roll, end.pitch, 0.0) == Some(r[steps - 1][..4])
    ensures r[0][4..] == [start.roll, start.gripper] && r[steps - 1][4..] == [end.roll, end.gripper]
  {
    SampleEnds(start, end, steps);
    assert RowFor(m, start, end, steps, 0, r[0]);
    assert RowFor(m, start, end, steps, steps - 1, r[steps - 1]);
  }

  /** The roll and gripper channels advance by the same amount at every step. */
  lemma EvenSpacing(start: Waypoint, end: Waypoint, steps: nat, i: nat)
    requires i + 1 < steps
    ensures Sample(start, end, steps, i + 1).roll - Sample(start, end, steps, i).roll ==
      (end.roll - start.roll) / ((steps - 1) as real)
    ensures Sample(start, end, steps, i + 1).gripper - Sample(start, end, steps, i).gripper ==
      (end.gripper - start.gripper) / ((steps - 1) as real)
  {
    LinspaceEnds(start.roll, end.roll, steps);
    LinspaceEnds(start.gripper, end.gripper, steps);
  }
}
