/**
 * The serial connection that the conveyor and the arm write to. The core only
 * ever asks whether it is open, writes text to it and closes it; the device
 * behind it is abstract.
 */
module Serial {

  class Port {
    var isOpen: bool
    /** Every text written so far, one entry per successful `write` call. */
    var written: seq<string>
    /** True when the device makes every `write` raise (an I/O error). */
    var faulty: bool

    constructor (open: bool, faulty: bool)
      ensures isOpen == open && this.faulty == faulty && written == []
    {
      isOpen := open;
      this.faulty := faulty;
      written := [];
    }

    /** `write(data)`: raises on a closed or faulty port, otherwise records `data`. */
    method Write(data: string) returns (raised: bool)
      modifies this
      ensures raised <==> !isOpen || faulty
      ensures isOpen == old(isOpen) && faulty == old(faulty)
      ensures written == if raised then old(written) else old(written) + [data]
    {
      raised := !isOpen || faulty;
      if !raised {
        written := written + [data];
      }
    }

    /** `close()`. */
    method Close()
      modifies this
      ensures !isOpen && written == old(written) && faulty == old(faulty)
    {
      isOpen := false;
    }
  }
}
