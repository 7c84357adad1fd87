/**
 * The six kinds of message as one tagged union: each alternative carries the
 * fields of its Java class, and its header is determined by the alternative.
 */
module Messages {
  import opened Wire
  import Helper
  import opened FloorRequests
  import opened ElevatorMessages
  import opened RequestListMessages
  import opened Registers
  import Responses
  import Terminates

  datatype Message =
    | RequestList(list: RequestListMessage)
    | ElevatorState(state: ElevatorMessage)
    | Request(request: FloorRequest)
    | Response
    | Registration(registration: Register)
    | Terminate

  /** `getHeader`: the discriminator the message was built with. */
  function Header(m: Message): (h: Int8)
    ensures h in Helper.Headers()
  {
    match m
    case RequestList(_) => Helper.REQUEST_LIST_MESSAGE
    case ElevatorState(_) => Helper.ELEVATOR_STATE_MESSAGE
    case Request(_) => Helper.FLOOR_REQUEST_MESSAGE
    case Response => Responses.HEADER
    case Registration(_) => Helper.REGISTER_MESSAGE
    case Terminate => Terminates.HEADER
  }

  /** `getData` of each kind; every datagram opens with the message's header. */
  function GetData(m: Message): (b: seq<Byte>)
    ensures |b| >= 1 && b[0] == Header(m)
  {
    match m
    case RequestList(l) => RequestListMessages.GetData(l)
    case ElevatorState(e) => ElevatorMessages.GetData(e)
    case Request(fr) => FloorRequests.GetData(fr)
    case Response => Responses.GetData()
    case Registration(r) => Registers.GetData(r)
    case Terminate => Terminates.GetData()
  }

  /**
   * `a.equals(b)` as each class defines it.  An ElevatorMessage or Register
   * compares fields and is unequal to any other kind; a FloorRequest or
   * RequestListMessage casts its argument and so raises on any other kind; a
   * Response or Terminate equals everything.
   */
  function Equals(a: Message, b: Message): (r: Result<bool>)
    ensures r.Err? <==> (a.Request? && !b.Request?) || (a.RequestList? && !b.RequestList?)
    ensures r.Err? ==> r.failure == ClassCast
    ensures (a.Response? || a.Terminate?) ==> r == Ok(true)
    ensures !(a.Response? || a.Terminate?) && r.Ok? ==> (r.value <==> a == b)
  {
    match a
    case ElevatorState(e) =>
      Ok(b.ElevatorState? && b.state.id == e.id && b.state.motorState == e.motorState
         && b.state.doorState == e.doorState && b.state.status == e.status && b.state.floor == e.floor)
    case Request(fr) =>
      if !b.Request? then Err(ClassCast)
      else Ok(fr.destinationFloor == b.request.destinationFloor && fr.sourceFloor == b.request.sourceFloor
              && fr.timestamp == b.request.timestamp)
    case RequestList(l) =>
      if !b.RequestList? then Err(ClassCast)
      else Ok(ListEquals(b.list.requestList, l.requestList))
    case Registration(r) =>
      Ok(b.Registration? && b.registration.id == r.id && b.registration.portNumber == r.portNumber)
    case Response => Ok(true)
    case Terminate => Ok(true)
  }

  /** `List.equals` over requests: same length and `FloorRequest.equals` position by position. */
  predicate ListEquals(xs: seq<FloorRequest>, ys: seq<FloorRequest>)
  {
    |xs| == |ys| && forall i :: 0 <= i < |xs| ==>
      xs[i].destinationFloor == ys[i].destinationFloor && xs[i].sourceFloor == ys[i].sourceFloor
      && xs[i].timestamp == ys[i].timestamp
  }

  /** Every message equals itself, and the acknowledgement even equals a shutdown signal. */
  lemma EqualsReflexive(a: Message)
    ensures Equals(a, a) == Ok(true)
    ensures Equals(Response, Terminate) == Ok(true)
  {
  }

  /** `compareTo` with an arbitrary message: another request compares by timestamp, anything else raises. */
  function CompareTo(fr: FloorRequest, other: Message): (r: Result<Int32>)
    ensures r.Ok? <==> other.Request?
    ensures r.Err? ==> r.failure == IllegalArgument
    ensures r.Ok? ==> r.value == FloorRequests.CompareTo(fr, other.request)
  {
    if other.Request? then Ok(FloorRequests.CompareTo(fr, other.request)) else Err(IllegalArgument)
  }
}
