/** The arm driver (`BrazoRobotico`): a speed command then a servo command over the shared serial port. */
module Arm {
  import opened Wrappers
  import opened Text
  import opened Serial

  /** `"V,{speed}\n"`: set the speed of every servo. */
  function SpeedCommand(speed: int): (cmd: string)
    ensures |cmd| >= 4 && cmd[..2] == "V," && cmd[|cmd| - 1] == '\n'
  {
    "V," + IntToString(speed) + "\n"
  }

  /** `"{servo},{angle}\n"`: move one servo; no letter prefix, only numbers, a comma and a newline. */
  function ServoCommand(servo: int, angle: int): (cmd: string)
    ensures |cmd| >= 4 && cmd[|cmd| - 1] == '\n'
    ensures forall i :: 0 <= i < |cmd| ==> IsDigit(cmd[i]) || cmd[i] in ",-\n"
  {
    IntToString(servo) + "," + IntToString(angle) + "\n"
  }

  /** The device can read the servo number and the angle back from a servo command. */
  lemma ServoCommandRoundTrip(servo: int, angle: int)
    ensures var cmd := ServoCommand(servo, angle);
      match SplitOnce(cmd[..|cmd| - 1], ',')
      case Some((s, a)) => ParseInt(s) == Some(servo) && ParseInt(a) == Some(angle)
      case None => false
  {
    var s, a := IntToString(servo), IntToString(angle);
    var cmd := ServoCommand(servo, angle);
    assert cmd[..|cmd| - 1] == s + [','] + a;
    assert ',' !in s;
    SplitOnceJoin(s, ',', a);
    IntRoundTrip(servo);
    IntRoundTrip(angle);
  }

  /** The device can read the speed back from a speed command. */
  lemma SpeedCommandRoundTrip(speed: int)
    ensures var cmd := SpeedCommand(speed); ParseInt(cmd[2..|cmd| - 1]) == Some(speed)
  {
    var cmd := SpeedCommand(speed);
    assert cmd[2..|cmd| - 1] == IntToString(speed);
    IntRoundTrip(speed);
  }

  class RobotArm {
    /** The serial connection handed over by the application, if any. */
    var connection: Port?

    constructor ()
      ensures connection == null
    {
      connection := null;
    }

    /** `set_connection`: store the given connection. */
    method SetConnection(c: Port?)
      modifies this
      ensures connection == c
    {
      connection := c;
    }

    /**
     * `mover_servo`: with no connection or a closed one nothing is written;
     * otherwise the speed command then the servo command, in that order. A
     * write that raises is not caught: `raised` reports it and the servo
     * command is then never sent.
     */
    method MoveServo(servo: int, angle: int, speed: int) returns (raised: bool)
      modifies connection
      ensures connection == null ==> !raised
      ensures connection != null ==>
        connection.isOpen == old(connection.isOpen) &&
        connection.faulty == old(connection.faulty) &&
        (raised <==> old(connection.isOpen) && connection.faulty) &&
        connection.written == old(connection.written) +
          (if old(connection.isOpen) && !connection.faulty
           then [SpeedCommand(speed), ServoCommand(servo, angle)] else [])
    {
      raised := false;
      if connection == null || !connection.isOpen {
        return;
      }
      raised := connection.Write(SpeedCommand(speed));
      if raised {
        return;
      }
      raised := connection.Write(ServoCommand(servo, angle));
    }
  }
}
