/** Where an elevator is relative to a floor, or that it is broken; sent on the wire as the ordinal. */
module Statuses {
  import opened Wire

  datatype Status = APPROACHING | ARRIVED | BROKEN {
    /** `getByte`: the ordinal as a Java byte. */
    function GetByte(): (b: Int8)
      ensures 0 <= b < 3
      ensures b == 0 <==> this == APPROACHING
      ensures b == 1 <==> this == ARRIVED
      ensures b == 2 <==> this == BROKEN
    {
      match this
      case APPROACHING => 0
      case ARRIVED => 1
      case BROKEN => 2
    }
  }

  /** `get`: the status with ordinal `b`; an index outside the table of values raises. */
  function Get(b: Int8): (r: Result<Status>)
    ensures r.Ok? <==> 0 <= b < 3
    ensures r.Ok? ==> r.value.GetByte() == b
  {
    if b == 0 then Ok(APPROACHING)
    else if b == 1 then Ok(ARRIVED)
    else if b == 2 then Ok(BROKEN)
    else Err(IndexOutOfBounds)
  }

  /** Every status survives the byte encoding. */
  lemma GetGetByte(s: Status)
    ensures Get(s.GetByte()) == Ok(s)
  {
  }
}
