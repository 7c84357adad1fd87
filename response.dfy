/** The empty acknowledgement. */
module Responses {
  import opened Wire
  import Helper

  /** The header a Response carries. */
  const HEADER: Int8 := Helper.EMPTY_REPLY_MESSAGE

  /** `getData`: the header octet alone. */
  function GetData(): (b: seq<Byte>)
    ensures b == [4]
  {
    [LowByte(HEADER)]
  }
}
