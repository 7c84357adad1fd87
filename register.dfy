/** The message an elevator sends to announce the port it listens on. */
module Registers {
  import opened Wire
  import Helper

  datatype Register = Register(id: Int32, portNumber: Int32)

  /** `getID` and `getPort`: the values the message was built with. */
  function GetID(r: Register): Int32 { r.id }
  function GetPort(r: Register): Int32 { r.portNumber }

  /** `getData`: header, then id and port as big-endian ints. */
  function GetData(r: Register): (b: seq<Byte>)
    ensures |b| == 9 && b[0] == Helper.REGISTER_MESSAGE
  {
    [LowByte(Helper.REGISTER_MESSAGE)] + PutInt(r.id) + PutInt(r.portNumber)
  }

  /** `datagramToMessage`: skips the header without looking at it, then reads id and port. */
  function DatagramToMessage(data: seq<Byte>): (r: Result<Register>)
    ensures r.Ok? <==> |data| >= 9
  {
    var header :- GetAt(data, 0);
    var id :- GetIntAt(data, 1);
    var port :- GetIntAt(data, 5);
    Ok(Register(id, port))
  }

  /** Every registration, for every `int` id and port, survives its datagram, whatever trails it. */
  lemma RoundTrip(r: Register, suffix: seq<Byte>)
    ensures DatagramToMessage(GetData(r) + suffix) == Ok(r)
  {
    var h := [LowByte(Helper.REGISTER_MESSAGE)];
    var data := GetData(r) + suffix;
    assert data == h + PutInt(r.id) + (PutInt(r.portNumber) + suffix);
    GetPutInt(h, r.id, PutInt(r.portNumber) + suffix);
    assert data == h + PutInt(r.id) + PutInt(r.portNumber) + suffix;
    GetPutInt(h + PutInt(r.id), r.portNumber, suffix);
  }

  /** The layout of the message test: id 4, port 1. */
  lemma GetDataExample()
    ensures GetData(Register(4, 1)) == [5, 0, 0, 0, 4, 0, 0, 0, 1]
  {
    PutSmallInt(4);
    PutSmallInt(1);
  }
}
