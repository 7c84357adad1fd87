/** A passenger's request to travel from a source floor to a destination floor, and its datagram. */
module FloorRequests {
  import opened Wire
  import Helper

  datatype FloorRequest = FloorRequest(timestamp: Int32, sourceFloor: Int32, destinationFloor: Int32)

  /** `isGoingUp`: the destination lies above the source. */
  predicate IsGoingUp(fr: FloorRequest)
  {
    fr.destinationFloor > fr.sourceFloor
  }

  /** `buttonPress`: the hall button the passenger pressed; equal floors count as "UP". */
  function ButtonPress(fr: FloorRequest): (r: string)
    ensures r == "DOWN" <==> fr.sourceFloor > fr.destinationFloor
    ensures r == "UP" <==> !(fr.sourceFloor > fr.destinationFloor)
    ensures !IsGoingUp(fr) && fr.sourceFloor != fr.destinationFloor ==> r == "DOWN"
    ensures IsGoingUp(fr) ==> r == "UP"
  {
    if fr.sourceFloor > fr.destinationFloor then "DOWN" else "UP"
  }

  /** `compareTo` against another request: the difference of the timestamps in Java `int` arithmetic. */
  function CompareTo(fr: FloorRequest, other: FloorRequest): (r: Int32)
    ensures -0x8000_0000 <= fr.timestamp - other.timestamp < 0x8000_0000 ==>
              (r < 0 <==> fr.timestamp < other.timestamp) && (r == 0 <==> fr.timestamp == other.timestamp)
    ensures (r - (fr.timestamp - other.timestamp)) % 0x1_0000_0000 == 0
  {
    Wrap32(fr.timestamp - other.timestamp)
  }

  /** `getData`: the header, the timestamp as four big-endian octets, then the low byte of each floor. */
  function GetData(fr: FloorRequest): (r: seq<Byte>)
    ensures |r| == 7 && r[0] == Helper.FLOOR_REQUEST_MESSAGE
  {
    [LowByte(Helper.FLOOR_REQUEST_MESSAGE)] + PutInt(fr.timestamp)
      + [LowByte(fr.sourceFloor), LowByte(fr.destinationFloor)]
  }

  /** `datagramToMessage`: skips the header without looking at it; the floors are read as signed bytes. */
  function DatagramToMessage(data: seq<Byte>): (r: Result<FloorRequest>)
    ensures r.Ok? <==> |data| >= 7
  {
    var header :- GetAt(data, 0);
    var time :- GetIntAt(data, 1);
    var source :- GetAt(data, 5);
    var dest :- GetAt(data, 6);
    Ok(FloorRequest(time, source, dest))
  }

  /** Decoding an encoded request keeps the timestamp and the floors' low bytes, whatever trails the datagram. */
  lemma DecodeGetData(fr: FloorRequest, suffix: seq<Byte>)
    ensures DatagramToMessage(GetData(fr) + suffix)
            == Ok(FloorRequest(fr.timestamp, Signed(LowByte(fr.sourceFloor)), Signed(LowByte(fr.destinationFloor))))
  {
    var data := GetData(fr) + suffix;
    var ts := PutInt(fr.timestamp);
    assert data == [LowByte(Helper.FLOOR_REQUEST_MESSAGE)] + ts + ([LowByte(fr.sourceFloor), LowByte(fr.destinationFloor)] + suffix);
    GetPutInt([LowByte(Helper.FLOOR_REQUEST_MESSAGE)], fr.timestamp, [LowByte(fr.sourceFloor), LowByte(fr.destinationFloor)] + suffix);
    assert data[5] == LowByte(fr.sourceFloor) && data[6] == LowByte(fr.destinationFloor);
  }

  /** The round trip is exact precisely when both floors fit in a signed byte. */
  lemma RoundTrip(fr: FloorRequest)
    ensures DatagramToMessage(GetData(fr)) == Ok(fr)
            <==> -0x80 <= fr.sourceFloor < 0x80 && -0x80 <= fr.destinationFloor < 0x80
  {
    DecodeGetData(fr, []);
    assert GetData(fr) + [] == GetData(fr);
    SignedLowByte(fr.sourceFloor);
    SignedLowByte(fr.destinationFloor);
  }

  /** The layout of the message test: timestamp 1, from floor 4 to floor 2. */
  lemma GetDataExample()
    ensures GetData(FloorRequest(1, 4, 2)) == [3, 0, 0, 0, 1, 4, 2]
  {
    PutSmallInt(1);
  }

  /** A request from floor -1 to floor -1 at time -1 survives the datagram, as the subsystem test has it. */
  lemma NegativeRoundTrip()
    ensures DatagramToMessage(GetData(FloorRequest(-1, -1, -1))) == Ok(FloorRequest(-1, -1, -1))
  {
    RoundTrip(FloorRequest(-1, -1, -1));
  }
}
