# Elevator fleet: protocol, cars and dispatch

A simulated building with several elevator cars, a floor subsystem that
replays passenger requests, and a central scheduler, all talking over UDP.
This project models, in Dafny, the parts of that system that decide what
happens:

- **the wire protocol**: six message kinds, each a one-octet discriminator
  followed by big-endian fields (`Wire`, `Helper`, `FloorRequests`,
  `ElevatorMessages`, `RequestListMessages`, `Registers`, `Responses`,
  `Terminates`, `Messages`), the three enum ordinal codecs (`MotorStates`,
  `DoorStates`, `Statuses`), and the receiving side of a subsystem with its
  retrying request/response exchange (`Subsystems`);
- **the car**: the `Elevator` class, whose timed actions update its fields
  step by step and break the car once its failure budget runs out
  (`Cars` holds the state transitions as functions, `Elevators.Elevator`
  the class whose methods are proved to perform them);
- **the elevator subsystem**: the controller inside each car that files the
  requests it is sent, lets passengers on and off at a stop, lights the
  destination buttons and chooses the next instruction
  (`ElevatorButtons`, `ElevatorSubsystems`, with the list operations shared
  with the scheduler in `RequestLists`);
- **the scheduler**: the dispatch engine that registers elevators, records
  their snapshots, picks the best elevator for a request, collects batches
  from the waitlist, and reallocates the work of a broken elevator
  (`Dispatch` as functions over the scheduler's bookkeeping, `Schedulers`
  for one turn of its message loop and the `Scheduler` class whose methods
  perform it).

Java semantics are modelled where they matter: `int` wrap-around
(`Wire.Wrap32`), `(byte)` casts and signed reads of octets, `Math.abs` of
the most negative `int`, the `int` comparator of `Stream.min`, the order in
which a `HashMap` is enumerated (an explicit `order` sequence of ids), and
the exceptions a decoder or `equals` raises (`Wire.Failure`). Sends are
recorded as values (`Dispatch.Outgoing`, `Subsystems.Datagram`) instead of
going to a socket.

Facts of the code that a reader might not expect:

- `isElevatorCandidate` refuses an up request from floor 1 for an elevator
  at floor 4 moving up (Scheduler.java:198-223, SchedulerTest.java:51-61).
  `Dispatch.CandidateTest` states the refusal.
- The capacity check is `> maxCapacity`. An elevator already holding five
  passengers therefore still qualifies (`Dispatch.CapacityBoundary`).
- A comment in the message test calls motor ordinal 2 "DOWN". The enum
  makes it `STOPPED`, and `ElevatorMessages.GetDataExample` follows the enum.

## Model

| member | source | states |
|---|---|---|
| Wire.Wrap32 | src/common_classes/Helper.java:24-38 | Java `int` arithmetic: the result is congruent to the exact value modulo 2^32 and equals it when it fits |
| Wire.LowByte | src/messages/FloorRequest.java:73-74 | `(byte) x` keeps `x` modulo 256 |
| Wire.Signed | src/messages/FloorRequest.java:89-90 | reading an octet as a Java byte: congruent modulo 256, negative exactly for octets 128 and above |
| Wire.SignedLowByte | src/messages/FloorRequest.java:73-90 | a value survives `(byte)` then a signed read exactly when it lies in -128..127 |
| Wire.GetAt | src/messages/FloorRequest.java:89-90 | `get()` succeeds exactly when an octet remains, giving that octet's signed value, and otherwise underflows |
| Wire.GetIntAt | src/messages/ElevatorMessage.java:141-142 | `getInt()` succeeds exactly when four octets remain |
| Wire.GetPutInt | src/messages/ElevatorMessage.java:123-142 | `getInt` reads back the `int` that `putInt` wrote, at any position in any datagram |
| Wire.GetPutByte | src/messages/FloorRequest.java:73-90 | `get` reads back the signed value of the octet `put` wrote, at any position |
| Wire.PutSmallInt | src/messages/Register.java:39-40 | a value in 0..255 is written as three zero octets and the value |
| Helper.Headers | src/common_classes/Helper.java:5-10 | the six discriminators are pairwise distinct and are exactly 1..6 in declaration order |
| Helper.TimeStringToMilliseconds | src/common_classes/Helper.java:24-38 | hours, minutes and milliseconds combine into the exact total reduced to a Java `int` |
| Helper.TimeOfDayExact | src/common_classes/Helper.java:24-38 | for a valid time of day the conversion is exact and below one day of milliseconds |
| Helper.TimestampExample | tests/tests/FloorTest.java:32-33 | 14:05:15.0 is 50715000 ms |
| MotorStates.MotorState.GetByte | src/elevator_subsystem/MotorState.java:20-22 | UP, DOWN and STOPPED are ordinals 0, 1 and 2, each iff that state |
| MotorStates.Get | src/elevator_subsystem/MotorState.java:29-31 | succeeds exactly for 0..2 and otherwise raises an index failure; what it gives has that ordinal |
| MotorStates.GetGetByte | src/elevator_subsystem/MotorState.java:20-31 | every motor state survives its ordinal |
| DoorStates.DoorState.GetByte | src/elevator_subsystem/DoorState.java:20-22 | OPEN is 0 and CLOSED is 1, each iff that state |
| DoorStates.Get | src/elevator_subsystem/DoorState.java:29-31 | succeeds exactly for 0..1 and otherwise raises; what it gives has that ordinal |
| DoorStates.GetGetByte | src/elevator_subsystem/DoorState.java:20-31 | every door state survives its ordinal |
| Statuses.Status.GetByte | src/elevator_subsystem/Status.java:19-21 | APPROACHING, ARRIVED and BROKEN are 0, 1 and 2, each iff that status |
| Statuses.Get | src/elevator_subsystem/Status.java:29-31 | succeeds exactly for 0..2 and otherwise raises; what it gives has that ordinal |
| Statuses.GetGetByte | src/elevator_subsystem/Status.java:19-31 | every status survives its ordinal |
| FloorRequests.ButtonPress | src/messages/FloorRequest.java:46-49 | "DOWN" iff the source is above the destination, "UP" otherwise, equal floors included |
| FloorRequests.CompareTo | src/messages/FloorRequest.java:121-129 | the timestamp difference modulo 2^32; when it fits, its sign orders the timestamps both ways |
| FloorRequests.GetData | src/messages/FloorRequest.java:69-77 | seven octets opening with header 3 |
| FloorRequests.DatagramToMessage | src/messages/FloorRequest.java:85-93 | decoding succeeds exactly when seven octets are present, whatever the first one is |
| FloorRequests.DecodeGetData | src/messages/FloorRequest.java:69-93 | decoding an encoding restores the timestamp and the signed low byte of each floor, whatever follows it |
| FloorRequests.RoundTrip | src/messages/FloorRequest.java:69-93 | the round trip gives back the request exactly when both floors lie in -128..127 |
| FloorRequests.GetDataExample | tests/tests/MessageTest.java:79-91 | request (1, 4, 2) is octets 3,0,0,0,1,4,2 |
| FloorRequests.NegativeRoundTrip | tests/tests/SubsystemTest.java:86-101 | request (-1, -1, -1) survives its datagram |
| ElevatorMessages.GetChange | src/messages/ElevatorMessage.java:58-79 | a breakdown is reported first, at the new floor; otherwise a motor change, then a door change, and the door report comes exactly when the car is not broken and its motor state is unchanged |
| ElevatorMessages.GetData | src/messages/ElevatorMessage.java:120-130 | twelve octets opening with header 2 |
| ElevatorMessages.DatagramToMessage | src/messages/ElevatorMessage.java:138-148 | a datagram shorter than twelve octets does not decode (under ten it underflows); a longer one decodes exactly when its three ordinals are in range, else raises `IndexOutOfBounds`; the id and floor are the big-endian `int`s at octets 1 and 5 and the enums have the ordinals at octets 9-11 |
| ElevatorMessages.HeaderIgnored | src/messages/ElevatorMessage.java:139-140 | the first octet is skipped unchecked: changing it never changes the result |
| ElevatorMessages.RoundTrip | src/messages/ElevatorMessage.java:120-148 | every snapshot, for every `int` id and floor, survives its datagram whatever follows it |
| ElevatorMessages.GetGetByteMotor | src/messages/ElevatorMessage.java:125-143 | a motor ordinal survives the byte cast and the signed read |
| ElevatorMessages.GetGetByteDoor | src/messages/ElevatorMessage.java:126-144 | a door ordinal survives the byte cast and the signed read |
| ElevatorMessages.GetGetByteStatus | src/messages/ElevatorMessage.java:127-145 | a status ordinal survives the byte cast and the signed read |
| ElevatorMessages.GetDataExample | tests/tests/MessageTest.java:39-54 | snapshot (1, 4, ordinal 2, 0, 2) is octets 2,0,0,0,1,0,0,0,4,2,0,2 |
| ElevatorMessages.BadOrdinalRaises | src/messages/ElevatorMessage.java:143 | a motor octet that is no ordinal makes decoding raise an index failure |
| RequestListMessages.Single | src/messages/RequestListMessage.java:15-19 | the one-request constructor gives a list of just that request |
| RequestListMessages.Pairs | src/messages/RequestListMessage.java:36-39 | two octets per request, the low bytes of source and destination, in list order |
| RequestListMessages.GetData | src/messages/RequestListMessage.java:33-41 | header 1, then pair `i` at octets `1+2i` and `2+2i`, length `1+2n` |
| RequestListMessages.ReadPairs | src/messages/RequestListMessage.java:53-57 | the decoding loop succeeds exactly when an even number of octets remains, each pair a request with timestamp 0 and signed floors, and otherwise underflows |
| RequestListMessages.DatagramToMessage | src/messages/RequestListMessage.java:49-60 | decoding succeeds exactly for a non-empty datagram of odd length |
| RequestListMessages.DecodeGetData | src/messages/RequestListMessage.java:33-60 | decoding an encoded batch rebuilds every request in order, with timestamp 0 and signed-byte floors |
| RequestListMessages.RoundTrip | src/messages/RequestListMessage.java:76-79 | a batch round-trips exactly when every timestamp is 0 and every floor fits in a byte |
| RequestListMessages.EmptyRoundTrip | tests/tests/SubsystemTest.java:158-173 | the empty batch is the single octet 1 and decodes to the empty batch |
| Registers.GetData | src/messages/Register.java:36-42 | nine octets opening with header 5 |
| Registers.DatagramToMessage | src/messages/Register.java:50-58 | decoding succeeds exactly when nine octets are present |
| Registers.RoundTrip | src/messages/Register.java:36-58 | every registration, for every `int` id and port, survives its datagram whatever follows it |
| Registers.GetDataExample | tests/tests/MessageTest.java:108-119 | registration (4, 1) is octets 5,0,0,0,4,0,0,0,1 |
| Responses.GetData | src/messages/Response.java:19-23 | the acknowledgement is the single octet 4 |
| Terminates.GetData | src/messages/Terminate.java:23-27 | the shutdown signal is the single octet 6 |
| Messages.Header | src/common_classes/Helper.java:5-10 | every message's header is one of the six discriminators |
| Messages.GetData | src/messages/Response.java:19-23 | every datagram opens with its message's header |
| Messages.Equals | src/messages/ElevatorMessage.java:106-112 | equality raises a class-cast failure exactly when a request or batch is compared to another kind; acknowledgement and shutdown equal anything; otherwise it is structural equality |
| Messages.EqualsReflexive | src/messages/Register.java:74-80 | every message equals itself, and an acknowledgement equals a shutdown signal |
| Messages.CompareTo | src/messages/FloorRequest.java:121-129 | comparing with a request gives the timestamp comparison; anything else raises an illegal-argument failure |
| Subsystems.DatagramToMessage | src/common_classes/Subsystem.java:122-148 | an empty datagram raises; headers 4 and 6 always decode; an unknown header gives no message; a decoded message carries the first octet as its header |
| Subsystems.Receive | src/common_classes/Subsystem.java:83-90 | only the first 100 octets of a datagram are decoded |
| Subsystems.RoundTrip | src/common_classes/Subsystem.java:122-148 | sending and receiving a message gives it back exactly when it fits the buffer and its request floors and batch timestamps survive the octets |
| Subsystems.OverlongBatch | src/common_classes/Subsystem.java:83-90 | a batch of 50 or more requests is cut to an even length and fails to decode |
| Subsystems.DecodeEdgeCases | tests/tests/SubsystemTest.java:68-173 | empty, truncated and unknown datagrams raise, underflow and decode to nothing |
| Subsystems.Exchange | src/common_classes/Subsystem.java:98-114 | the exchange sends at least once and at most three times |
| Subsystems.RpcSendAndReceive | src/common_classes/Subsystem.java:98-114 | the loop's reply and send count are those of the exchange, and every send is the message's datagram to the scheduler port |
| Subsystems.GivesUpAfterThreeTimeouts | tests/tests/SubsystemTest.java:35-66 | three timeouts give three sends and no reply |
| Subsystems.FirstNonTimeoutDecides | src/common_classes/Subsystem.java:105-113 | the first wait that does not time out decides the reply, after exactly that many sends |
| Subsystems.ImmediateReply | src/common_classes/Subsystem.java:99-104 | a well-formed reply to the first send is returned after one send |
| Cars.Initial | src/elevator_subsystem/Elevator.java:21-43 | a new car is on floor 1, stopped, doors closed, arrived, with the given budget |
| Cars.TimePasses | src/elevator_subsystem/Elevator.java:183-193 | floor and doors stay; the car breaks exactly when the duration reaches the budget, and then stops with no budget; otherwise the budget drops by the duration |
| Cars.OpenDoors | src/elevator_subsystem/Elevator.java:155-163 | the doors end open unless the car broke, in which case they stay as they were |
| Cars.CloseDoors | src/elevator_subsystem/Elevator.java:168-176 | the doors end closed unless the car broke, in which case they stay as they were |
| Cars.Continue | src/elevator_subsystem/Elevator.java:100-116 | the doors never change and a breakdown keeps the floor |
| Cars.Stop | src/elevator_subsystem/Elevator.java:123-137 | a breakdown keeps the doors as they were |
| Cars.Move | src/elevator_subsystem/Elevator.java:142-150 | a breakdown keeps the floor, and otherwise the doors end closed |
| Cars.SoundPreserved | src/elevator_subsystem/Elevator.java:50-69 | every instruction keeps "broken means stopped with no budget", and a broken car stays broken |
| Cars.BrokenIsTerminal | src/elevator_subsystem/Elevator.java:124-125 | a broken car ignores every instruction |
| Cars.BudgetNeverGrows | src/elevator_subsystem/Elevator.java:183-193 | no instruction raises the budget or takes it below zero |
| Cars.CompletesWithinBudget | src/elevator_subsystem/Elevator.java:50-69 | an instruction breaks the car exactly when its cost is positive and reaches the budget; otherwise the budget drops by exactly its cost |
| Cars.MoveWithinBudget | src/elevator_subsystem/Elevator.java:142-150 | with budget for it, a move ends closed, approaching, one floor on in the motor's direction |
| Cars.StopWithinBudget | src/elevator_subsystem/Elevator.java:123-137 | with budget for it, a moving car ends stopped, arrived, doors open, and one floor on if it was still arriving |
| Cars.MoveEffect | src/elevator_subsystem/Elevator.java:52-58 | MOVE_UP and MOVE_DOWN, when they complete, leave the doors closed, the motor that way and the car approaching; a breakdown keeps the floor |
| Cars.StopEffect | src/elevator_subsystem/Elevator.java:123-137 | STOP is a no-op on a stopped car, and otherwise ends stopped, arrived, doors open unless it broke |
| Cars.ContinueEffect | src/elevator_subsystem/Elevator.java:100-116 | CONTINUE is a no-op on a stopped car; a completed step toggles between approaching and arriving, advancing a floor on arrival |
| Cars.IdleChangesNothing | src/elevator_subsystem/Elevator.java:66-67 | IDLE changes nothing, the budget included |
| Cars.ElevatorTests | tests/tests/ElevatorTest.java:128-169 | a fresh car moves either way, ignores STOP, stays arrived after CONTINUE, and breaks when its budget is one floor approach |
| Elevators.Elevator.constructor | src/elevator_subsystem/Elevator.java:40-43 | the new car's fields are those of the initial state |
| Elevators.Elevator.HandleInstruction | src/elevator_subsystem/Elevator.java:50-69 | the fields end as the instruction's transition of the old fields |
| Elevators.Elevator.GetState | src/elevator_subsystem/Elevator.java:91-94 | the snapshot carries the car's id and current fields |
| Elevators.Elevator.ContinueElevator | src/elevator_subsystem/Elevator.java:100-116 | the fields end as the continue transition of the old fields |
| Elevators.Elevator.Stop | src/elevator_subsystem/Elevator.java:123-137 | the fields end as the stop transition of the old fields |
| Elevators.Elevator.Move | src/elevator_subsystem/Elevator.java:142-150 | the fields end as the move transition of the old fields |
| Elevators.Elevator.OpenDoors | src/elevator_subsystem/Elevator.java:155-163 | the fields end as the door-opening transition of the old fields |
| Elevators.Elevator.CloseDoors | src/elevator_subsystem/Elevator.java:168-176 | the fields end as the door-closing transition of the old fields |
| Elevators.Elevator.TimePassesInElevator | src/elevator_subsystem/Elevator.java:183-193 | the fields end as `TimePasses` of the old fields |
| ElevatorButtons.ElevatorButton.constructor | src/elevator_subsystem/ElevatorButton.java:24-26 | a new button carries its number and is unlit |
| ElevatorButtons.ElevatorButton.LightOn | src/elevator_subsystem/ElevatorButton.java:32-34 | the lamp is lit afterwards and the number is unchanged |
| ElevatorButtons.ElevatorButton.LightOff | src/elevator_subsystem/ElevatorButton.java:39-41 | the lamp is dark afterwards and the number is unchanged |
| ElevatorButtons.ElevatorButton.GetButtonNumber | src/elevator_subsystem/ElevatorButton.java:47-49 | gives the button's floor number |
| ElevatorButtons.LampsAreIdempotent | src/elevator_subsystem/ElevatorButton.java:32-41 | whatever the lamp was, a second `lightOn` leaves it lit as the first did, a second `lightOff` leaves it dark as the first did, and the number never changes |
| RequestLists.Select | src/scheduler/Scheduler.java:120-143 | the requests meeting a criterion, never more than the list |
| RequestLists.Reject | src/scheduler/Scheduler.java:120-143 | the requests not meeting a criterion, never more than the list |
| RequestLists.FilterMembers | src/scheduler/Scheduler.java:120-143 | the two filters keep exactly the requests that do, and do not, meet the criterion |
| RequestLists.Split | src/scheduler/Scheduler.java:120-143 | together the two filters lose and duplicate nothing |
| RequestLists.FiltersKeepOrder | src/scheduler/Scheduler.java:120-143 | both filters keep their requests in list order |
| RequestLists.InterleavesPartition | src/scheduler/Scheduler.java:261-271 | a merge of two lists holds exactly their requests |
| RequestLists.LeadsSomewhere | src/elevator_subsystem/ElevatorSubsystem.java:225-243 | the first request leads up or down exactly when either list is non-empty |
| RequestLists.BoardThenAlightClearsFloor | src/elevator_subsystem/ElevatorSubsystem.java:149-174 | after the elevator's stop nobody waits at the floor or rides to it, and the rest keep their order |
| RequestLists.AlightThenBoardClearsFloor | src/scheduler/Scheduler.java:112-145 | after the scheduler's stop nobody waits at the floor, and only boarders can ride to it |
| RequestLists.BoardThenAlightConserves | src/elevator_subsystem/ElevatorSubsystem.java:149-174 | at the elevator's stop every request stays in a list or is a passenger getting off there |
| RequestLists.AlightThenBoardConserves | src/scheduler/Scheduler.java:112-145 | at the scheduler's stop every request stays in a list or is a passenger getting off there |
| RequestLists.OrdersAgree | src/scheduler/Scheduler.java:112-145 | the scheduler's and elevator's orders of letting passengers off and on agree unless someone boards for the floor they are on |
| RequestLists.OrdersDiffer | src/elevator_subsystem/ElevatorSubsystem.java:149-174 | a request from floor 3 to floor 3 is dropped by the elevator but kept in service by the scheduler |
| RequestLists.FiledAllSplits | src/scheduler/Scheduler.java:283-290 | filing a batch puts the requests from the car's floor in service and the others in assigned, each in batch order |
| RequestLists.FiledAllConserves | src/scheduler/Scheduler.java:283-290 | filing a batch neither loses nor duplicates a request |
| RequestLists.RemoveMatching | src/scheduler/Scheduler.java:120-133 | the iterator-remove loop leaves the non-matching requests and takes out the matching ones, both in order |
| ElevatorSubsystems.NextInstruction | src/elevator_subsystem/ElevatorSubsystem.java:278-318 | a stopped car is told to move down, move up or idle; a moving car is told only to stop or continue |
| ElevatorSubsystems.StoppedCarChoice | src/elevator_subsystem/ElevatorSubsystem.java:278-288 | a stopped car moves down iff there is work below, up iff work only above, and idles iff there is none |
| ElevatorSubsystems.MovingCarStops | src/elevator_subsystem/ElevatorSubsystem.java:289-318 | a moving car stops wherever a passenger gets off, and only where someone gets on or off |
| ElevatorSubsystems.PassesWaitingPassenger | src/elevator_subsystem/ElevatorSubsystem.java:293-313 | a car passing a waiting passenger has nobody to drop there, its first request leads its way and more work lies ahead |
| ElevatorSubsystems.HasRequestsMissesOneSidedWork | src/elevator_subsystem/ElevatorSubsystem.java:69-71 | the written test reports no work for a car with only a passenger on board, or only one to collect |
| ElevatorSubsystems.HasAnyRequests | src/elevator_subsystem/ElevatorSubsystem.java:66-71 | there is work iff some request is in service or assigned |
| ElevatorSubsystems.HasAnyRequestsWeaker | src/elevator_subsystem/ElevatorSubsystem.java:66-71 | the written test implies the corrected one, which holds iff either list is non-empty |
| ElevatorSubsystems.StopsAtLastRequestTest | tests/tests/ElevatorTest.java:44-58 | after the test's stop at floor 7, a car going down stops at floor 5 for its waiting passengers |
| ElevatorSubsystems.StoppedCarTests | tests/tests/ElevatorTest.java:82-97 | a stopped car moves down, or up, toward a waiting passenger |
| ElevatorSubsystems.MovingCarTests | tests/tests/ElevatorTest.java:104-121 | a moving car stops for a passenger getting off and carries on past an empty floor |
| ElevatorSubsystems.ElevatorSubsystem.constructor | src/elevator_subsystem/ElevatorSubsystem.java:51-63 | a fresh car, one unlit button for each floor 1..n, and no requests |
| ElevatorSubsystems.ElevatorSubsystem.UpdateFloorRequest | src/elevator_subsystem/ElevatorSubsystem.java:136-144 | the request joins service iff it starts at the car's floor, and is assigned otherwise |
| ElevatorSubsystems.ElevatorSubsystem.HandleRequestUpdate | src/elevator_subsystem/ElevatorSubsystem.java:149-174 | a moving car's lists and lamps stay; at a stop passengers board, then those for here get off, the boarders' destinations light and this floor's lamp goes dark |
| ElevatorSubsystems.ElevatorSubsystem.Board | src/elevator_subsystem/ElevatorSubsystem.java:153-161 | the passengers waiting here move to the end of service in order, and their destination lamps light |
| ElevatorSubsystems.ElevatorSubsystem.Scan | src/elevator_subsystem/ElevatorSubsystem.java:153-161 | the loop splits the assigned list into boarders and the rest, lighting exactly the boarders' destinations |
| ElevatorSubsystems.ElevatorSubsystem.LightDestination | src/elevator_subsystem/ElevatorSubsystem.java:158 | exactly the lamp of that floor comes on |
| ElevatorSubsystems.ElevatorSubsystem.Alight | src/elevator_subsystem/ElevatorSubsystem.java:163-169 | the passengers for here leave service, the others stay in order |
| ElevatorSubsystems.ElevatorSubsystem.GetNextInstruction | src/elevator_subsystem/ElevatorSubsystem.java:278-318 | the instruction is the one the decision rules give for the current lists, which it leaves alone |
| ElevatorSubsystems.ElevatorSubsystem.ShouldElevatorMoveDown | src/elevator_subsystem/ElevatorSubsystem.java:183-197 | true iff some passenger rides below the car or waits below it |
| ElevatorSubsystems.ElevatorSubsystem.ShouldElevatorMoveUp | src/elevator_subsystem/ElevatorSubsystem.java:205-219 | true iff some passenger rides above the car or waits above it |
| ElevatorSubsystems.ElevatorSubsystem.IsDestination | src/elevator_subsystem/ElevatorSubsystem.java:250-257 | true iff a passenger in service gets off at the floor |
| ElevatorSubsystems.ElevatorSubsystem.IsSource | src/elevator_subsystem/ElevatorSubsystem.java:265-272 | true iff a passenger waits at the floor |
| Dispatch.Empty | src/scheduler/Scheduler.java:45-60 | the empty bookkeeping keeps the scheduler's invariant |
| Dispatch.Candidate | src/scheduler/Scheduler.java:198-223 | a candidate has room; a stopped idle car with room always qualifies; otherwise an up request is taken iff the first request leads up and the source is at or above the car, and a down request symmetrically |
| Dispatch.WaitingCandidate | src/scheduler/Scheduler.java:198-223 | an idle elevator qualifies iff it is stopped |
| Dispatch.CapacityBoundary | src/scheduler/Scheduler.java:202-203 | holding exactly five still qualifies, holding six never does |
| Dispatch.CandidateTest | tests/tests/SchedulerTest.java:51-61 | at floor 4 holding 7 to 8, a request 1 to 3 is refused and 5 to 6 taken |
| Dispatch.JavaAbs | src/scheduler/Scheduler.java:237-238 | `Math.abs` gives the magnitude, except that the most negative `int` is its own absolute value |
| Dispatch.CompareExact | src/scheduler/Scheduler.java:237-238 | away from the extremes of `int`, the comparator orders elevators by true distance |
| Dispatch.CompareWraps | src/scheduler/Scheduler.java:237-238 | near the extremes it wraps: the most negative floor looks nearer than the request's own floor |
| Dispatch.MinFrom | src/scheduler/Scheduler.java:233-239 | the reduction gives the start or one of the elements |
| Dispatch.Closest | src/scheduler/Scheduler.java:233-239 | `min` is empty iff there are no candidates, and otherwise one of them |
| Dispatch.MinFromNearest | src/scheduler/Scheduler.java:233-239 | the running minimum is at least as near as the start and every element |
| Dispatch.MinFromFirst | src/scheduler/Scheduler.java:233-239 | a running minimum that moved is strictly nearer than the start and everything before it |
| Dispatch.ClosestIsNearest | src/scheduler/Scheduler.java:233-239 | `min` picks an element of least distance |
| Dispatch.ClosestIsFirst | src/scheduler/Scheduler.java:233-239 | among equally near elements `min` picks the first |
| Dispatch.CandidatesMembers | src/scheduler/Scheduler.java:233-235 | the filter keeps exactly the snapshots of the enumerated elevators that qualify |
| Dispatch.BestElevatorSpec | src/scheduler/Scheduler.java:232-245 | the chosen id, unless -1, is a candidate's, and -1 comes whenever nobody qualifies |
| Dispatch.NoCandidateIffMinusOne | src/scheduler/Scheduler.java:232-245 | when no id is -1, the result is -1 iff nobody qualifies |
| Dispatch.BestIsNearest | src/scheduler/Scheduler.java:232-245 | the chosen elevator is a candidate at least as near as every other candidate |
| Dispatch.ClaimedAreBest | src/scheduler/Scheduler.java:261-273 | every collected request names the elevator as its best |
| Dispatch.ClaimedHeading | src/scheduler/Scheduler.java:261-273 | a batch heads the way it was started, or the way of its first request |
| Dispatch.ClaimSharesHeading | src/scheduler/Scheduler.java:261-273 | every two requests of a batch head the same way |
| Dispatch.ClaimWithinCapacity | src/scheduler/Scheduler.java:261 | a batch never takes the elevator past five, and a full one collects nothing |
| Dispatch.ClaimPartitions | src/scheduler/Scheduler.java:253-275 | what is collected and what stays lose and duplicate nothing |
| Dispatch.ClaimInterleaves | src/scheduler/Scheduler.java:253-275 | the batch and the remaining waitlist are a merge of the waitlist |
| Dispatch.ClaimKeepsOrder | src/scheduler/Scheduler.java:253-275 | both keep the waitlist's order |
| Dispatch.Send | src/scheduler/Scheduler.java:283-293 | only the elevator's lists change; snapshots, enumeration and ports stay |
| Dispatch.SendFiles | src/scheduler/Scheduler.java:283-290 | requests from the car's floor join service, the rest assigned, in batch order; other elevators' lists stay |
| Dispatch.Register | src/scheduler/Scheduler.java:307-311 | the port is recorded and both lists become empty, replacing any earlier ones |
| Dispatch.UpdateState | src/scheduler/Scheduler.java:112-145 | the snapshot replaces the stored one, even for an elevator that never registered when it is moving; ports and the list maps' keys stay |
| Dispatch.UpdateStateTest | tests/tests/SchedulerTest.java:41-48 | on an empty scheduler, a moving elevator 0's snapshot is stored and enumerated, and it gets no lists |
| Dispatch.UpdateStateValid | src/scheduler/Scheduler.java:112-145 | recording a snapshot keeps the invariant |
| Dispatch.UpdateStateLists | src/scheduler/Scheduler.java:112-145 | at a stop the lists are those of alighting then boarding; a moving elevator's and every other elevator's lists stay |
| Dispatch.Retire | src/scheduler/Scheduler.java:343-347 | the broken elevator leaves the snapshots and both list maps; its port stays |
| Dispatch.Offer | src/scheduler/Scheduler.java:352-361 | a reallocation turn changes only request lists |
| Dispatch.OfferAll | src/scheduler/Scheduler.java:352-362 | the reallocation loop changes only request lists |
| Dispatch.HandleBroken | src/scheduler/Scheduler.java:336-363 | the broken elevator is gone from snapshots and lists; ports stay |
| Dispatch.ClaimThenSendConserves | src/scheduler/Scheduler.java:253-293 | collecting then sending moves requests from the waitlist to one elevator without loss or duplication |
| Dispatch.SendConserves | src/scheduler/Scheduler.java:283-293 | sending adds exactly the sent requests to the scheduler's pool |
| Dispatch.OfferConserves | src/scheduler/Scheduler.java:352-361 | a reallocation turn keeps every request |
| Dispatch.OfferAllConserves | src/scheduler/Scheduler.java:352-362 | the whole reallocation loop keeps every request |
| Dispatch.HandleBrokenDropsOnlyInService | src/scheduler/Scheduler.java:336-363 | a breakdown loses exactly the broken elevator's passengers in service; its waiting ones return to the waitlist |
| Dispatch.UpdateStateConserves | src/scheduler/Scheduler.java:112-145 | a snapshot loses exactly the passengers getting off at a stop, and nothing when moving |
| Dispatch.BestElevatorTest | tests/tests/SchedulerTest.java:64-82 | the nearer of two elevators takes 5 to 6, and nobody can take 2 to 1 |
| Dispatch.GetFloorRequestsTest | tests/tests/SchedulerTest.java:85-101 | of 5 to 6, 7 to 8 and 2 to 1 waiting, the elevator collects the two going up |
| Dispatch.HandleBrokenTest | tests/tests/SchedulerTest.java:104-123 | the only elevator breaks holding 2 to 1, which returns to the waitlist |
| Schedulers.Arrival | src/scheduler/Scheduler.java:380-413 | handling a floor request keeps the invariant |
| Schedulers.Breakdown | src/scheduler/Scheduler.java:420-425 | handling a breakdown keeps the invariant |
| Schedulers.Snapshot | src/scheduler/Scheduler.java:426-440 | handling a working elevator's snapshot keeps the invariant |
| Schedulers.Turn | src/scheduler/Scheduler.java:380-458 | every message turn keeps the invariant |
| Schedulers.FloorRequestJoinsPool | src/scheduler/Scheduler.java:380-413 | a floor request is never lost: the pool grows by exactly it |
| Schedulers.ArrivalAnswersFloor | src/scheduler/Scheduler.java:380-413 | the floor subsystem is answered last |
| Schedulers.SnapshotKeepsPool | src/scheduler/Scheduler.java:426-440 | a snapshot loses only the passengers getting off at a stop |
| Schedulers.RespondKeepsPool | src/scheduler/Scheduler.java:430-438 | answering an elevator keeps the pool |
| Schedulers.BreakdownRetires | src/scheduler/Scheduler.java:420-425 | a breakdown loses only passengers in service, forgets the elevator and tells it to terminate last |
| Schedulers.LastBreakdownEndsRun | src/scheduler/Scheduler.java:509-512 | when the last registered elevator breaks, the run is over |
| Schedulers.RegistrationKeepsRunning | src/scheduler/Scheduler.java:443-449 | after a registration the run is not over and that elevator is waiting |
| Schedulers.Stop | src/scheduler/Scheduler.java:118-143 | the two loops give the lists of alighting then boarding |
| Schedulers.Scheduler.constructor | src/scheduler/Scheduler.java:45-60 | empty bookkeeping, running, nothing sent |
| Schedulers.Scheduler.Register | src/scheduler/Scheduler.java:307-311 | the bookkeeping becomes `Register` of the old one, nothing else changes |
| Schedulers.Scheduler.UpdateElevatorState | src/scheduler/Scheduler.java:112-145 | the bookkeeping becomes `UpdateState` of the old one, nothing else changes; only a stop needs a registered elevator |
| Schedulers.UpdateElevatorStateTest | tests/tests/SchedulerTest.java:41-48 | a fresh scheduler stores the snapshot of an unregistered elevator moving up |
| Schedulers.Scheduler.GetFloorRequests | src/scheduler/Scheduler.java:253-275 | gives the batch and leaves the waitlist that `Claim` gives |
| Schedulers.Scheduler.SendRequestsToElevator | src/scheduler/Scheduler.java:283-293 | the lists become `Send` of the old ones and the batch is sent to the elevator's port |
| Schedulers.Scheduler.IsFinished | src/scheduler/Scheduler.java:318-329 | true iff every list and the waitlist are empty |
| Schedulers.Scheduler.HandleBrokenElevator | src/scheduler/Scheduler.java:336-363 | the state and sends become those of `HandleBroken` |
| Schedulers.Scheduler.Reallocate | src/scheduler/Scheduler.java:352-362 | the state and sends become those of `OfferAll` over the enumeration order |
| Schedulers.Scheduler.OfferBatch | src/scheduler/Scheduler.java:353-360 | the state and sends become those of `Offer` |
| Schedulers.Scheduler.HandleMessage | src/scheduler/Scheduler.java:380-458 | the state and sends become those of `Turn` |
| Schedulers.Scheduler.HandleFloorRequest | src/scheduler/Scheduler.java:380-413 | the state and sends become those of `Arrival` |
| Schedulers.Scheduler.HandleElevatorState | src/scheduler/Scheduler.java:414-441 | the state and sends become those of `Turn` for the snapshot |
| Schedulers.Scheduler.RetireElevator | src/scheduler/Scheduler.java:420-425 | the state and sends become those of `Breakdown` |
| Schedulers.Scheduler.ServeElevator | src/scheduler/Scheduler.java:426-440 | the state and sends become those of `Snapshot` |
| Schedulers.Scheduler.RespondTo | src/scheduler/Scheduler.java:430-438 | the state and sends become those of `Respond` |
| Schedulers.Scheduler.CheckIfElevatorsHaveAllTerminated | src/scheduler/Scheduler.java:509-512 | true iff an elevator was added and no port is left |

## Left out

- Sockets, threads and timing are not modelled. This covers the `Subsystem` constructors, `send`, `receive`'s socket call, `updateSocketTimeout` and `closeSockets`. A received datagram is a parameter. A wait on the socket is one `Subsystems.Receipt`. Every send is recorded as a value.
- `SchedulerMessageReceiver`, the Swing views and `FloorSubsystem` are not part of this model. They are a thread hand-off, user interface, and file reading with paced sends. The scheduler's inbound batch is one message per `HandleMessage` call.
- The outer loops of `ElevatorSubsystem.run` (ElevatorSubsystem.java:77-129) and `Scheduler.run` are not modelled, nor the final terminate loop of `run` (Scheduler.java:469-477). One turn of the scheduler's inner loop is modelled by `Turn`. The car's side of a turn is modelled by `HandleRequestUpdate`, `GetNextInstruction` and `Elevator.HandleInstruction`.
- The scheduler's latency metrics are not modelled, because they read clocks and use floating point.
- `generateRandomBreakingTime` is left out because it uses `Math.random`. The failure budget is a constructor parameter instead.
- `Helper.sleep` is left out; the durations of `Config` are the `Cars.Timings` parameter, with `Cars.CONFIG` holding the configured values.
- Helper.TimeStringToMilliseconds: takes the seconds as integer milliseconds. The `Float.parseFloat` of the seconds field and the splitting of the text are floating point and string parsing.
- `toString`, console output and `getChange`'s text are not modelled; `ElevatorMessages.Change` records which report is chosen and its values.
- The `Message` base class is not part of this model. The union `Messages.Message` stands for it.
- Setters that the core never calls, such as `ElevatorMessage.setStatus` and the `FloorRequest` setters, are not modelled.
- A Java `NullPointerException` for an elevator id the scheduler never registered is a precondition (`Registered`) of the scheduler's members, not an error result. The exception is `updateElevatorState` for a moving elevator, which stores the snapshot without touching the lists; `UpdateState` and `UpdateElevatorState` model that case. The `getFloorRequests` that follows in `run` would then fail, so `Turn` and `Snapshot` still require a registered id.
- `Helper.LENGTH_OF_HEADER` is declared but never read by the code, so it is not modelled. The `Register` getters are the datatype's fields (`Registers.GetID`, `Registers.GetPort`).
- ElevatorSubsystems.ElevatorSubsystem.HandleRequestUpdate, ElevatorSubsystems.ElevatorSubsystem.Board, ElevatorSubsystems.ElevatorSubsystem.Scan: they require a button for the stop floor and for every boarder's destination. The `NullPointerException` that `lightOn`/`lightOff` raise otherwise (ElevatorSubsystem.java:157, 171), and the lists left half updated by it, are not modelled.
- Schedulers.Scheduler.SendRequestsToElevator: requires a stored snapshot for the elevator, because the source reads its floor.
- `HashMap` enumeration order is abstracted as the `order` sequence of ids, in first-snapshot order. The model proves its properties for any such order rather than Java's hash order. Java's `HashMap<Integer, …>` enumerates small non-negative ids in ascending order. So when two candidates are equally near, `getBestElevator` in Java picks the one with the smaller id. The model picks the one whose first snapshot came first, and the two can differ.
- Dispatch.BestIsNearest: nearest only for floors within 2^30 of zero (`Near`); beyond that the comparator wraps, as `Dispatch.CompareWraps` shows.
- ElevatorSubsystems.ElevatorSubsystem.Board: its iterator loop runs in the `Scan` helper, which collects the boarders and then updates the lists in one step.
- The receiving side of `Response` and `Terminate` (`datagramToMessage` ignoring the payload) is covered by `Subsystems.DatagramToMessage`; they have no decoder of their own here.

## Findings

| source | as written | input that shows it | evidently intended | confidence | as-written member | corrected member |
|---|---|---|---|---|---|---|
| src/elevator_subsystem/ElevatorSubsystem.java:69-71 | `hasRequests` is true only when both the in-service and the assigned lists are non-empty (`&&`) | one passenger in service and nothing assigned: the car has work, yet `hasRequests` is false | the car has requests when either list is non-empty (`\|\|`), as its doc comment says | not executed | ElevatorSubsystems.HasRequestsMissesOneSidedWork | ElevatorSubsystems.HasAnyRequests |
