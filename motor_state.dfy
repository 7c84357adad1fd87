/** The three states of an elevator motor, sent on the wire as their ordinal. */
module MotorStates {
  import opened Wire

  datatype MotorState = UP | DOWN | STOPPED {
    /** `getByte`: the ordinal as a Java byte. */
    function GetByte(): (b: Int8)
      ensures 0 <= b < 3
      ensures b == 0 <==> this == UP
      ensures b == 1 <==> this == DOWN
      ensures b == 2 <==> this == STOPPED
    {
      match this
      case UP => 0
      case DOWN => 1
      case STOPPED => 2
    }
  }

  /** `get`: the state with ordinal `b`; an index outside the table of values raises. */
  function Get(b: Int8): (r: Result<MotorState>)
    ensures r.Ok? <==> 0 <= b < 3
    ensures r.Ok? ==> r.value.GetByte() == b
  {
    if b == 0 then Ok(UP)
    else if b == 1 then Ok(DOWN)
    else if b == 2 then Ok(STOPPED)
    else Err(IndexOutOfBounds)
  }

  /** Every state survives the byte encoding. */
  lemma GetGetByte(m: MotorState)
    ensures Get(m.GetByte()) == Ok(m)
  {
  }
}
