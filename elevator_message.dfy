/** The state snapshot an elevator reports, and its datagram. */
module ElevatorMessages {
  import opened Wire
  import Helper
  import opened MotorStates
  import opened DoorStates
  import opened Statuses

  datatype ElevatorMessage = ElevatorMessage(id: Int32, floor: Int32, motorState: MotorState,
                                             doorState: DoorState, status: Status)

  /** `hasStopped`: the motor is stopped. */
  predicate HasStopped(em: ElevatorMessage)
  {
    em.motorState == STOPPED
  }

  /**
   * What `getChange` reports about the step from `before` to `after`; the
   * model keeps the facts each message line is built from, not its text.
   */
  datatype Change =
    | BrokenAt(floor: Int32)                                        // "BROKEN at floor n"
    | MovingApproaching(motor: MotorState, status: Status, floor: Int32) // "Moving m and s floor n"
    | StoppedAt(motor: MotorState, floor: Int32)                    // "m at floor n"
    | MovingAt(motor: MotorState, status: Status, floor: Int32)     // "Moving m and s at floor n"
    | DoorsNow(door: DoorState)                                     // "Doors are now d"
    | StatusFloor(status: Status, floor: Int32)                     // "s floor n"
    | StatusAt(status: Status, floor: Int32)                        // "s at floor n"

  /** `getChange`: a breakdown is reported first, then a motor change, then a door change, then the status. */
  function GetChange(before: ElevatorMessage, after: ElevatorMessage): (r: Change)
    ensures after.status == BROKEN <==> r.BrokenAt?
    ensures r.BrokenAt? ==> r.floor == after.floor
    ensures (r.MovingApproaching? || r.StoppedAt? || r.MovingAt?)
              <==> after.status != BROKEN && before.motorState != after.motorState
    ensures r.DoorsNow? <==> after.status != BROKEN && before.motorState == after.motorState
                               && before.doorState != after.doorState
    ensures r.DoorsNow? ==> r.door == after.doorState
    ensures r.StoppedAt? ==> after.motorState == STOPPED && r.floor == after.floor
  {
    if after.status == BROKEN then BrokenAt(after.floor)
    else if before.motorState != after.motorState then
      if after.status == APPROACHING then MovingApproaching(after.motorState, after.status, after.floor)
      else if after.motorState == STOPPED then StoppedAt(after.motorState, after.floor)
      else MovingAt(after.motorState, after.status, after.floor)
    else if before.doorState != after.doorState then DoorsNow(after.doorState)
    else if after.status == APPROACHING then StatusFloor(after.status, after.floor)
    else StatusAt(after.status, after.floor)
  }

  /** `getData`: header, id and floor as big-endian ints, then the three ordinals. */
  function GetData(em: ElevatorMessage): (r: seq<Byte>)
    ensures |r| == 12 && r[0] == Helper.ELEVATOR_STATE_MESSAGE
  {
    [LowByte(Helper.ELEVATOR_STATE_MESSAGE)] + PutInt(em.id) + PutInt(em.floor)
      + [LowByte(em.motorState.GetByte()), LowByte(em.doorState.GetByte()), LowByte(em.status.GetByte())]
  }

  /** `datagramToMessage`: skips the header without looking at it, then reads the fields in order. */
  function DatagramToMessage(data: seq<Byte>): (r: Result<ElevatorMessage>)
    ensures |data| < 12 ==> r.Err?
    ensures |data| < 10 ==> r == Err(BufferUnderflow)
    ensures |data| >= 12 ==> (r.Ok? <==> data[9] < 3 && data[10] < 2 && data[11] < 3)
    ensures |data| >= 12 && r.Err? ==> r.failure == IndexOutOfBounds
    ensures r.Ok? ==> r.value.id == IntOf(data[1], data[2], data[3], data[4])
    ensures r.Ok? ==> r.value.floor == IntOf(data[5], data[6], data[7], data[8])
    ensures r.Ok? ==> r.value.motorState.GetByte() == data[9]
    ensures r.Ok? ==> r.value.doorState.GetByte() == data[10]
    ensures r.Ok? ==> r.value.status.GetByte() == data[11]
  {
    var header :- GetAt(data, 0);
    var id :- GetIntAt(data, 1);
    var floor :- GetIntAt(data, 5);
    var ms :- GetAt(data, 9);
    var motor :- MotorStates.Get(ms);
    var ds :- GetAt(data, 10);
    var door :- DoorStates.Get(ds);
    var s :- GetAt(data, 11);
    var status :- Statuses.Get(s);
    Ok(ElevatorMessage(id, floor, motor, door, status))
  }

  /** The header octet is read and thrown away: any other first octet decodes the same. */
  lemma HeaderIgnored(h: Byte, h': Byte, rest: seq<Byte>)
    ensures DatagramToMessage([h] + rest) == DatagramToMessage([h'] + rest)
  {
    var d, d' := [h] + rest, [h'] + rest;
    assert d[1..] == d'[1..] == rest;
  }

  /** Every snapshot, for every `int` id and floor, survives its datagram, whatever trails it. */
  lemma RoundTrip(em: ElevatorMessage, suffix: seq<Byte>)
    ensures DatagramToMessage(GetData(em) + suffix) == Ok(em)
  {
    var h := [LowByte(Helper.ELEVATOR_STATE_MESSAGE)];
    var tail := [LowByte(em.motorState.GetByte()), LowByte(em.doorState.GetByte()), LowByte(em.status.GetByte())];
    var data := GetData(em) + suffix;
    assert data == h + PutInt(em.id) + (PutInt(em.floor) + tail + suffix);
    GetPutInt(h, em.id, PutInt(em.floor) + tail + suffix);
    assert data == h + PutInt(em.id) + PutInt(em.floor) + (tail + suffix);
    GetPutInt(h + PutInt(em.id), em.floor, tail + suffix);
    assert data[9] == tail[0] && data[10] == tail[1] && data[11] == tail[2];
    GetGetByteMotor(em.motorState);
    GetGetByteDoor(em.doorState);
    GetGetByteStatus(em.status);
  }

  lemma GetGetByteMotor(m: MotorState)
    ensures MotorStates.Get(Signed(LowByte(m.GetByte()))) == Ok(m)
  {
    MotorStates.GetGetByte(m);
  }

  lemma GetGetByteDoor(d: DoorState)
    ensures DoorStates.Get(Signed(LowByte(d.GetByte()))) == Ok(d)
  {
    DoorStates.GetGetByte(d);
  }

  lemma GetGetByteStatus(s: Status)
    ensures Statuses.Get(Signed(LowByte(s.GetByte()))) == Ok(s)
  {
    Statuses.GetGetByte(s);
  }

  /** The layout of the message test: elevator 1 at floor 4, motor ordinal 2, doors open, broken. */
  lemma GetDataExample()
    ensures GetData(ElevatorMessage(1, 4, STOPPED, OPEN, BROKEN)) == [2, 0, 0, 0, 1, 0, 0, 0, 4, 2, 0, 2]
  {
    PutSmallInt(1);
    PutSmallInt(4);
  }

  /** A datagram whose motor octet is no ordinal raises instead of decoding. */
  lemma BadOrdinalRaises(data: seq<Byte>)
    requires |data| >= 12 && data[9] >= 3
    ensures DatagramToMessage(data) == Err(IndexOutOfBounds)
  {
  }
}
