/** A batch of requests the scheduler hands an elevator; only the floors travel on the wire. */
module RequestListMessages {
  import opened Wire
  import Helper
  import opened FloorRequests

  datatype RequestListMessage = RequestListMessage(requestList: seq<FloorRequest>)

  /** The constructor taking one request. */
  function Single(fr: FloorRequest): (r: RequestListMessage)
    ensures |r.requestList| == 1 && r.requestList[0] == fr
  {
    RequestListMessage([fr])
  }

  /** The (source, destination) octet pairs of `requests`, in list order. */
  function Pairs(requests: seq<FloorRequest>): (r: seq<Byte>)
    ensures |r| == 2 * |requests|
    ensures forall i :: 0 <= i < |requests| ==>
              r[2 * i] == LowByte(requests[i].sourceFloor) && r[2 * i + 1] == LowByte(requests[i].destinationFloor)
  {
    if requests == [] then []
    else [LowByte(requests[0].sourceFloor), LowByte(requests[0].destinationFloor)] + Pairs(requests[1..])
  }

  /** `getData`: the header followed by one octet pair per request. */
  function GetData(m: RequestListMessage): (r: seq<Byte>)
    ensures |r| == 1 + 2 * |m.requestList| && r[0] == Helper.REQUEST_LIST_MESSAGE
    ensures forall i :: 0 <= i < |m.requestList| ==>
              r[1 + 2 * i] == LowByte(m.requestList[i].sourceFloor)
              && r[2 + 2 * i] == LowByte(m.requestList[i].destinationFloor)
  {
    [LowByte(Helper.REQUEST_LIST_MESSAGE)] + Pairs(m.requestList)
  }

  /** The decoding loop from position `pos`: each pair becomes a request with timestamp 0; a lone octet underflows. */
  function ReadPairs(data: seq<Byte>, pos: nat): (r: Result<seq<FloorRequest>>)
    requires pos <= |data|
    decreases |data| - pos
    ensures r.Ok? <==> (|data| - pos) % 2 == 0
    ensures r.Err? ==> r.failure == BufferUnderflow
    ensures r.Ok? ==> |r.value| == (|data| - pos) / 2
    ensures r.Ok? ==> forall i :: 0 <= i < |r.value| ==>
              r.value[i] == FloorRequest(0, Signed(data[pos + 2 * i]), Signed(data[pos + 2 * i + 1]))
  {
    if pos == |data| then Ok([])
    else
      var source := Signed(data[pos]);
      var dest :- GetAt(data, pos + 1);
      var rest :- ReadPairs(data, pos + 2);
      Ok([FloorRequest(0, source, dest)] + rest)
  }

  /** `datagramToMessage`: skips the header, then reads pairs until the datagram is used up. */
  function DatagramToMessage(data: seq<Byte>): (r: Result<RequestListMessage>)
    ensures r.Ok? <==> |data| >= 1 && |data| % 2 == 1
    ensures r.Err? ==> r.failure == BufferUnderflow
  {
    var header :- GetAt(data, 0);
    var requests :- ReadPairs(data, 1);
    Ok(RequestListMessage(requests))
  }

  /** What a request becomes after a trip through a batch: timestamp 0 and the floors' signed low bytes. */
  function OnTheWire(fr: FloorRequest): FloorRequest
  {
    FloorRequest(0, Signed(LowByte(fr.sourceFloor)), Signed(LowByte(fr.destinationFloor)))
  }

  /** Decoding an encoded batch rebuilds every request in order, with timestamp 0 and signed-byte floors. */
  lemma DecodeGetData(m: RequestListMessage)
    ensures DatagramToMessage(GetData(m)).Ok?
    ensures var d := DatagramToMessage(GetData(m)).value.requestList;
            |d| == |m.requestList| && forall i :: 0 <= i < |d| ==> d[i] == OnTheWire(m.requestList[i])
  {
  }

  /** A batch round-trips exactly when every timestamp is 0 and every floor fits in a signed byte. */
  lemma RoundTrip(m: RequestListMessage)
    ensures DatagramToMessage(GetData(m)) == Ok(m)
            <==> forall fr :: fr in m.requestList ==>
                   fr.timestamp == 0 && -0x80 <= fr.sourceFloor < 0x80 && -0x80 <= fr.destinationFloor < 0x80
  {
    DecodeGetData(m);
    var d := DatagramToMessage(GetData(m)).value.requestList;
    forall i | 0 <= i < |m.requestList|
      ensures OnTheWire(m.requestList[i]) == m.requestList[i]
              <==> m.requestList[i].timestamp == 0 && -0x80 <= m.requestList[i].sourceFloor < 0x80
                   && -0x80 <= m.requestList[i].destinationFloor < 0x80
    {
      SignedLowByte(m.requestList[i].sourceFloor);
      SignedLowByte(m.requestList[i].destinationFloor);
    }
    if d == m.requestList {
      forall fr | fr in m.requestList
        ensures fr.timestamp == 0 && -0x80 <= fr.sourceFloor < 0x80 && -0x80 <= fr.destinationFloor < 0x80
      {
        var i :| 0 <= i < |m.requestList| && m.requestList[i] == fr;
        assert d[i] == OnTheWire(fr);
      }
    }
  }

  /** An empty batch is the header alone and decodes to an empty batch. */
  lemma EmptyRoundTrip()
    ensures GetData(RequestListMessage([])) == [1]
    ensures DatagramToMessage([1]) == Ok(RequestListMessage([]))
  {
  }
}
