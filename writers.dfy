/** The hardware boundary (Writer.h). The dual-channel position writer and
    the optional single-channel brightness writer are recorded as one trace,
    so that the order of position and brightness writes is observable. */
module Writers {

  datatype Event = Position(x: int, y: int) | Level(value: int)

  class Device {
    /** getMaxValue() of the position writer. */
    const positionMax: nat
    /** getMaxValue() of the brightness writer. */
    const levelMax: nat
    var events: seq<Event>

    constructor (positionMax: nat, levelMax: nat)
      ensures this.positionMax == positionMax && this.levelMax == levelMax
      ensures events == []
    {
      this.positionMax := positionMax;
      this.levelMax := levelMax;
      events := [];
    }

    /** DualDACWriter::write(a, b). */
    method WritePosition(a: int, b: int)
      modifies this`events
      ensures events == old(events) + [Position(a, b)]
    {
      events := events + [Position(a, b)];
    }

    /** SingleDACWriter::write(value). */
    method WriteLevel(value: int)
      modifies this`events
      ensures events == old(events) + [Level(value)]
    {
      events := events + [Level(value)];
    }
  }
}
