/** The conveyor belt driver (`BandaTransportadora`): one-letter commands over a shared serial port. */
module Conveyor {
  import opened Wrappers
  import opened Serial

  /** Start the belt. */
  const ACTIVATE: string := "P"
  /** Stop the belt. */
  const DEACTIVATE: string := "S"
  /** Run to the right. */
  const RIGHT: string := "D"
  /** Run to the left. */
  const LEFT: string := "I"

  /**
   * What one `enviar_comando` puts on the wire: the command and a single
   * newline when the connection is open and the write succeeds, else nothing.
   */
  function Emission(open: bool, faulty: bool, command: string): (out: seq<string>)
    ensures out == [] || out == [command + "\n"]
    ensures out != [] <==> open && !faulty
  {
    if open && !faulty then [command + "\n"] else []
  }

  class Belt {
    /** The serial connection handed over by the application, if any. */
    var connection: Port?
    var port: Option<string>
    var baudrate: int
    var timeout: real

    constructor (port: Option<string>, baudrate: int, timeout: real)
      ensures connection == null
      ensures this.port == port && this.baudrate == baudrate && this.timeout == timeout
    {
      connection := null;
      this.port := port;
      this.baudrate := baudrate;
      this.timeout := timeout;
    }

    /** `set_connection`: store the given connection and nothing else. */
    method SetConnection(c: Port?)
      modifies this
      ensures connection == c
      ensures port == old(port) && baudrate == old(baudrate) && timeout == old(timeout)
    {
      connection := c;
    }

    /** `cerrar_conexion`: close an open connection, otherwise change nothing. */
    method CloseConnection()
      modifies connection
      ensures connection != null ==>
        connection.isOpen == false &&
        connection.written == old(connection.written) &&
        connection.faulty == old(connection.faulty)
    {
      if connection != null && connection.isOpen {
        connection.Close();
      }
    }

    /**
     * `enviar_comando`: one write of `command` followed by a newline when the
     * connection is open; a missing or closed connection, and a write that
     * raises, leave the log as it was and raise nothing.
     */
    method SendCommand(command: string)
      modifies connection
      ensures connection != null ==>
        connection.isOpen == old(connection.isOpen) &&
        connection.faulty == old(connection.faulty) &&
        connection.written == old(connection.written) + Emission(old(connection.isOpen), connection.faulty, command)
    {
      if connection != null && connection.isOpen {
        var raised := connection.Write(command + "\n");
        // An exception from the write is reported and swallowed.
      }
    }

    /** `activar`. */
    method Activate()
      modifies connection
      ensures connection != null ==>
        connection.isOpen == old(connection.isOpen) &&
        connection.faulty == old(connection.faulty) &&
        connection.written == old(connection.written) + Emission(old(connection.isOpen), connection.faulty, ACTIVATE)
    {
      SendCommand(ACTIVATE);
    }

    /** `desactivar`. */
    method Deactivate()
      modifies connection
      ensures connection != null ==>
        connection.isOpen == old(connection.isOpen) &&
        connection.faulty == old(connection.faulty) &&
        connection.written == old(connection.written) + Emission(old(connection.isOpen), connection.faulty, DEACTIVATE)
    {
      SendCommand(DEACTIVATE);
    }

    /** `direccion_derecha`. */
    method TurnRight()
      modifies connection
      ensures connection != null ==>
        connection.isOpen == old(connection.isOpen) &&
        connection.faulty == old(connection.faulty) &&
        connection.written == old(connection.written) + Emission(old(connection.isOpen), connection.faulty, RIGHT)
    {
      SendCommand(RIGHT);
    }

    /** `direccion_izquierda`. */
    method TurnLeft()
      modifies connection
      ensures connection != null ==>
        connection.isOpen == old(connection.isOpen) &&
        connection.faulty == old(connection.faulty) &&
        connection.written == old(connection.written) + Emission(old(connection.isOpen), connection.faulty, LEFT)
    {
      SendCommand(LEFT);
    }
  }

  /** The four commands are distinct one-letter codes, so the device can tell them apart. */
  lemma CommandsDistinct()
    ensures |ACTIVATE| == |DEACTIVATE| == |RIGHT| == |LEFT| == 1
    ensures ACTIVATE != DEACTIVATE && ACTIVATE != RIGHT && ACTIVATE != LEFT
    ensures DEACTIVATE != RIGHT && DEACTIVATE != LEFT && RIGHT != LEFT
  {
  }
}
