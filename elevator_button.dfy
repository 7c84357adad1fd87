/** The button inside a car for one floor, with its lamp. */
module ElevatorButtons {
  import opened Wire

  class ElevatorButton {
    /** Whether the lamp is lit. */
    var isLit: bool
    /** The floor the button stands for. */
    const num: Int32

    /** A new button carries its floor number and is unlit. */
    constructor (num: Int32)
      ensures this.num == num && !isLit
    {
      this.num := num;
      isLit := false;
    }

    /** `lightOn`: the lamp is lit afterwards, whatever it was. */
    method LightOn()
      modifies this
      ensures isLit
    {
      isLit := true;
    }

    /** `lightOff`: the lamp is dark afterwards, whatever it was. */
    method LightOff()
      modifies this
      ensures !isLit
    {
      isLit := false;
    }

    function GetButtonNumber(): (n: Int32)
      reads this
      ensures n == num
    {
      num
    }

    predicate IsLit()
      reads this
    {
      isLit
    }
  }

  /**
   * Whatever the lamp was, a second `lightOn` leaves it as the first one did,
   * and so does a second `lightOff`; the floor number never changes.
   */
  method LampsAreIdempotent(b: ElevatorButton) returns (onOnce: bool, onTwice: bool, offOnce: bool, offTwice: bool)
    modifies b
    ensures onOnce && onTwice == onOnce
    ensures !offOnce && offTwice == offOnce
    ensures b.GetButtonNumber() == old(b.GetButtonNumber())
  {
    b.LightOn();
    onOnce := b.IsLit();
    b.LightOn();
    onTwice := b.IsLit();
    b.LightOff();
    offOnce := b.IsLit();
    b.LightOff();
    offTwice := b.IsLit();
  }
}
