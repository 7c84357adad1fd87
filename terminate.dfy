/** The shutdown signal. */
module Terminates {
  import opened Wire
  import Helper

  /** The header a Terminate carries. */
  const HEADER: Int8 := Helper.TERMINATE

  /** `getData`: the header octet alone. */
  function GetData(): (b: seq<Byte>)
    ensures b == [6]
  {
    [LowByte(HEADER)]
  }
}
