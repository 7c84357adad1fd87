/**
 * What every subsystem shares: turning a received datagram back into a
 * message, and the request/reply exchange with the scheduler that retries
 * on a timeout.
 */
module Subsystems {
  import opened Wire
  import Helper
  import FloorRequests
  import RequestListMessages
  import opened Messages
  import ElevatorMessages
  import Registers

  /** The size of the receive buffer: longer datagrams are cut to this many octets. */
  const BUFFER_SIZE: nat := 100

  /** The number of times a request is sent before the exchange gives up. */
  const MAX_TRIES: nat := 3

  /** A datagram handed to the socket, with the port it is addressed to. */
  datatype Datagram = Datagram(port: Int32, payload: seq<Byte>)

  /** What one wait on the socket produced. */
  datatype Receipt =
    | Timeout                      // SocketTimeoutException
    | Closed                       // any other I/O failure of the socket
    | Delivered(payload: seq<Byte>)

  /**
   * `datagramToMessage`: dispatch on the first octet to the decoder of that
   * kind.  An empty datagram raises, a decoder's exception propagates, and an
   * unknown header yields no message (`null`).
   */
  function DatagramToMessage(data: seq<Byte>): (r: Result<Option<Message>>)
    ensures |data| == 0 ==> r == Err(IndexOutOfBounds)
    ensures |data| > 0 && (data[0] == 4 || data[0] == 6) ==> r.Ok?
    ensures |data| > 0 && !(1 <= data[0] <= 6) ==> r == Ok(None)
    ensures |data| > 0 && 1 <= data[0] <= 6 && r.Ok? ==> r.value.Some?
    ensures r.Ok? && r.value.Some? ==> Header(r.value.value) == data[0]
  {
    if |data| == 0 then Err(IndexOutOfBounds)
    else
      var header := Signed(data[0]);
      if header == Helper.ELEVATOR_STATE_MESSAGE then
        var e :- ElevatorMessages.DatagramToMessage(data);
        Ok(Some(ElevatorState(e)))
      else if header == Helper.FLOOR_REQUEST_MESSAGE then
        var fr :- FloorRequests.DatagramToMessage(data);
        Ok(Some(Request(fr)))
      else if header == Helper.EMPTY_REPLY_MESSAGE then
        Ok(Some(Response))
      else if header == Helper.REGISTER_MESSAGE then
        var reg :- Registers.DatagramToMessage(data);
        Ok(Some(Registration(reg)))
      else if header == Helper.TERMINATE then
        Ok(Some(Terminate))
      else if header == Helper.REQUEST_LIST_MESSAGE then
        var l :- RequestListMessages.DatagramToMessage(data);
        Ok(Some(RequestList(l)))
      else
        Ok(None)
  }

  /** `receive`: the datagram as it fits in the receive buffer, decoded. */
  function Receive(payload: seq<Byte>): (r: Result<Option<Message>>)
    ensures |payload| <= BUFFER_SIZE ==> r == DatagramToMessage(payload)
    ensures |payload| > BUFFER_SIZE ==> r == DatagramToMessage(payload[..BUFFER_SIZE])
  {
    DatagramToMessage(if |payload| <= BUFFER_SIZE then payload else payload[..BUFFER_SIZE])
  }

  /** A floor number the one-octet field of a request carries unchanged. */
  predicate InByte(x: int)
  {
    -0x80 <= x < 0x80
  }

  /** The messages that survive being sent and received. */
  predicate Transmissible(m: Message)
  {
    match m
    case Request(fr) => InByte(fr.sourceFloor) && InByte(fr.destinationFloor)
    case RequestList(l) =>
      |GetData(m)| <= BUFFER_SIZE &&
      forall fr :: fr in l.requestList ==>
        fr.timestamp == 0 && InByte(fr.sourceFloor) && InByte(fr.destinationFloor)
    case _ => true
  }

  /**
   * A message sent by one subsystem is received as the same message exactly
   * when its floors fit in a byte and, for a batch, its timestamps are zero
   * and it fits in the receive buffer (at most 49 requests).
   */
  lemma {:induction false} RoundTrip(m: Message)
    ensures Receive(GetData(m)) == Ok(Some(m)) <==> Transmissible(m)
  {
    var data := GetData(m);
    match m
    case ElevatorState(e) =>
      ElevatorMessages.RoundTrip(e, []);
      assert ElevatorMessages.GetData(e) + [] == data;
    case Request(fr) =>
      FloorRequests.RoundTrip(fr);
    case Response =>
    case Registration(reg) =>
      Registers.RoundTrip(reg, []);
      assert Registers.GetData(reg) + [] == data;
    case Terminate =>
    case RequestList(l) =>
      RequestListMessages.RoundTrip(l);
      if |data| > BUFFER_SIZE {
        assert |data[..BUFFER_SIZE]| % 2 == 0;
      }
  }

  /** A batch of 50 requests no longer fits: the receiver sees an even-length, undecodable prefix. */
  lemma {:induction false} OverlongBatch(l: RequestListMessages.RequestListMessage)
    requires |l.requestList| >= 50
    ensures Receive(GetData(RequestList(l))) == Err(BufferUnderflow)
  {
    var data := GetData(RequestList(l));
    assert |data[..BUFFER_SIZE]| % 2 == 0;
    assert data[..BUFFER_SIZE][0] == data[0];
  }

  /** An empty datagram, a garbled one and an unknown header. */
  lemma DecodeEdgeCases()
    ensures Receive([]) == Err(IndexOutOfBounds)
    ensures Receive([3, 0, 0]) == Err(BufferUnderflow)
    ensures Receive([9, 1, 2]) == Ok(None)
  {
  }

  /** The wait outcome of try number `k`; a run of receipts that stops short keeps timing out. */
  function ReceiptAt(receipts: seq<Receipt>, k: nat): Receipt
  {
    if k < |receipts| then receipts[k] else Timeout
  }

  /** The reply the exchange hands back after a wait that produced `rc`, if it stops there. */
  function Answer(rc: Receipt): Option<Message>
  {
    match rc
    case Delivered(p) => if Receive(p).Ok? then Receive(p).value else None
    case _ => None
  }

  /**
   * The exchange from try `tries` on: the reply and the number of sends made
   * in all.  A timeout retries while tries remain; anything else ends it, a
   * failure with no reply.
   */
  function Exchange(receipts: seq<Receipt>, tries: nat): (r: (Option<Message>, nat))
    requires tries <= MAX_TRIES
    ensures tries <= r.1 <= MAX_TRIES
    ensures r.1 == tries <==> tries == MAX_TRIES
    decreases MAX_TRIES - tries
  {
    if tries == MAX_TRIES then (None, tries)
    else if ReceiptAt(receipts, tries).Timeout? then Exchange(receipts, tries + 1)
    else (Answer(ReceiptAt(receipts, tries)), tries + 1)
  }

  /**
   * `rpcSendAndReceive`: send `message` to the scheduler and wait; on a
   * timeout send again, up to three sends in all.  `receipts` stands for what
   * the socket produces on each wait, in order.
   */
  method RpcSendAndReceive(message: Message, receipts: seq<Receipt>)
    returns (reply: Option<Message>, sent: seq<Datagram>)
    ensures (reply, |sent|) == Exchange(receipts, 0)
    ensures forall i :: 0 <= i < |sent| ==> sent[i] == Datagram(Helper.SCHEDULER_PORT, GetData(message))
  {
    var tries := 0;
    sent := [];
    while tries < MAX_TRIES
      invariant tries <= MAX_TRIES && |sent| == tries
      invariant forall i :: 0 <= i < |sent| ==> sent[i] == Datagram(Helper.SCHEDULER_PORT, GetData(message))
      invariant forall k :: 0 <= k < tries ==> ReceiptAt(receipts, k).Timeout?
      invariant Exchange(receipts, tries) == Exchange(receipts, 0)
    {
      tries := tries + 1;
      sent := sent + [Datagram(Helper.SCHEDULER_PORT, GetData(message))];
      var rc := ReceiptAt(receipts, tries - 1);
      match rc {
        case Timeout =>
        case Closed =>
          return None, sent;
        case Delivered(p) =>
          var received := Receive(p);
          if received.Ok? {
            return received.value, sent;
          } else {
            return None, sent;
          }
      }
    }
    reply := None;
  }

  /** Three timeouts in a row: three identical sends and no reply. */
  lemma {:induction false} GivesUpAfterThreeTimeouts(receipts: seq<Receipt>)
    requires forall k :: 0 <= k < MAX_TRIES ==> ReceiptAt(receipts, k).Timeout?
    ensures Exchange(receipts, 0) == (None, MAX_TRIES)
  {
    assert ReceiptAt(receipts, 0).Timeout? && ReceiptAt(receipts, 1).Timeout? && ReceiptAt(receipts, 2).Timeout?;
  }

  /** The first wait that does not time out decides the reply, after exactly that many sends. */
  lemma {:induction false} FirstNonTimeoutDecides(receipts: seq<Receipt>, k: nat)
    requires k < MAX_TRIES && !ReceiptAt(receipts, k).Timeout?
    requires forall j :: 0 <= j < k ==> ReceiptAt(receipts, j).Timeout?
    ensures Exchange(receipts, 0) == (Answer(ReceiptAt(receipts, k)), k + 1)
  {
    var t := k;
    while t > 0
      invariant 0 <= t <= k
      invariant Exchange(receipts, t) == (Answer(ReceiptAt(receipts, k)), k + 1)
    {
      t := t - 1;
      assert ReceiptAt(receipts, t).Timeout?;
    }
  }

  /** A scheduler that replies at once with a well-formed message: one send, and that message. */
  lemma ImmediateReply(m: Message, rest: seq<Receipt>)
    requires Transmissible(m)
    ensures Exchange([Delivered(GetData(m))] + rest, 0) == (Some(m), 1)
  {
    RoundTrip(m);
    assert ReceiptAt([Delivered(GetData(m))] + rest, 0) == Delivered(GetData(m));
  }
}
