/** The two states of the elevator doors, sent on the wire as their ordinal. */
module DoorStates {
  import opened Wire

  datatype DoorState = OPEN | CLOSED {
    /** `getByte`: the ordinal as a Java byte. */
    function GetByte(): (b: Int8)
      ensures 0 <= b < 2
      ensures b == 0 <==> this == OPEN
      ensures b == 1 <==> this == CLOSED
    {
      match this
      case OPEN => 0
      case CLOSED => 1
    }
  }

  /** `get`: the state with ordinal `b`; an index outside the table of values raises. */
  function Get(b: Int8): (r: Result<DoorState>)
    ensures r.Ok? <==> 0 <= b < 2
    ensures r.Ok? ==> r.value.GetByte() == b
  {
    if b == 0 then Ok(OPEN)
    else if b == 1 then Ok(CLOSED)
    else Err(IndexOutOfBounds)
  }

  /** Every state survives the byte encoding. */
  lemma GetGetByte(d: DoorState)
    ensures Get(d.GetByte()) == Ok(d)
  {
  }
}
