/**
 * One elevator car: a motor, doors and a position, driven one instruction at
 * a time.  Every timed action spends part of a budget, the time the car has
 * left before it breaks; an action that outlasts the budget breaks the car
 * instead of completing.  The scheduling of real time (`sleep`) is not
 * modelled: only the budget counts time.
 */
module Cars {
  import opened Wire
  import opened MotorStates
  import opened DoorStates
  import opened Statuses
  import opened Instructions

  /** The duration of a timed action, in milliseconds. */
  type Duration = d: int | 0 < d < 0x8000_0000 witness 1

  /** How long each timed action takes. */
  datatype Timings = Timings(
    decelerateToStop: Duration,
    arriveAtFloor: Duration,
    travelBetweenFloors: Duration,
    approachFloor: Duration,
    openDoors: Duration,
    closeDoors: Duration)

  /** The durations the program is configured with. */
  const CONFIG: Timings := Timings(1000, 250, 4750, 5000, 2000, 2000)

  /** The state of a car: its fields apart from the identifier. */
  datatype Car = Car(
    floor: Int32,
    motorState: MotorState,
    doorState: DoorState,
    status: Status,
    timeBeforeBreaking: Int32)

  /** A new car: on floor 1, stopped, doors closed, arrived. */
  function Initial(timeBeforeBreaking: Int32): (c: Car)
    ensures c.floor == 1 && c.motorState == STOPPED && c.doorState == CLOSED && c.status == ARRIVED
    ensures c.timeBeforeBreaking == timeBeforeBreaking
  {
    Car(1, STOPPED, CLOSED, ARRIVED, timeBeforeBreaking)
  }

  predicate Broke(c: Car)
  {
    c.status == BROKEN
  }

  /** On a floor and moving on toward the next one. */
  predicate ApproachingNextFloor(c: Car)
  {
    c.status == ARRIVED && c.motorState != STOPPED
  }

  /** Moving and about to arrive at a floor. */
  predicate ArrivingAtFloor(c: Car)
  {
    c.status == APPROACHING && c.motorState != STOPPED
  }

  /** A broken car has stopped and has no budget left. */
  predicate Sound(c: Car)
  {
    Broke(c) ==> c.motorState == STOPPED && c.timeBeforeBreaking == 0
  }

  /** The floor one step in the motor's direction (Java `int` arithmetic). */
  function NextFloor(c: Car): Int32
  {
    Wrap32(c.floor + if c.motorState == UP then 1 else -1)
  }

  /**
   * `timePassesInElevator`: an action that lasts at least the remaining
   * budget breaks the car, leaving no budget; a shorter one uses up its
   * duration.  Position and doors are untouched.
   */
  function TimePasses(c: Car, duration: Duration): (r: Car)
    ensures r.floor == c.floor && r.doorState == c.doorState
    ensures Broke(r) <==> Broke(c) || duration >= c.timeBeforeBreaking
    ensures duration >= c.timeBeforeBreaking ==> r.timeBeforeBreaking == 0 && r.motorState == STOPPED
    ensures duration < c.timeBeforeBreaking ==>
              r.timeBeforeBreaking == c.timeBeforeBreaking - duration && 0 < r.timeBeforeBreaking
              && r.motorState == c.motorState && r.status == c.status
  {
    if duration >= c.timeBeforeBreaking then
      c.(timeBeforeBreaking := 0, status := BROKEN, motorState := STOPPED)
    else
      c.(timeBeforeBreaking := c.timeBeforeBreaking - duration)
  }

  /** `openDoors`: nothing if already open; the doors open unless the car breaks first. */
  function OpenDoors(t: Timings, c: Car): (r: Car)
    ensures r.floor == c.floor
    ensures !Broke(r) ==> r.doorState == OPEN
    ensures Broke(r) ==> r.doorState == c.doorState
  {
    if c.doorState == OPEN then c
    else
      var c1 := TimePasses(c, t.openDoors);
      if Broke(c1) then c1 else c1.(doorState := OPEN)
  }

  /** `closeDoors`: nothing if already closed; the doors close unless the car breaks first. */
  function CloseDoors(t: Timings, c: Car): (r: Car)
    ensures r.floor == c.floor
    ensures !Broke(r) ==> r.doorState == CLOSED
    ensures Broke(r) ==> r.doorState == c.doorState
  {
    if c.doorState == CLOSED then c
    else
      var c1 := TimePasses(c, t.closeDoors);
      if Broke(c1) then c1 else c1.(doorState := CLOSED)
  }

  /**
   * `continueElevator`: a car that has just passed a floor travels to the
   * next one, and a car approaching a floor arrives there; otherwise nothing.
   */
  function Continue(t: Timings, c: Car): (r: Car)
    ensures r.doorState == c.doorState
    ensures Broke(r) ==> r.floor == c.floor
  {
    if ApproachingNextFloor(c) then
      var c1 := TimePasses(c, t.travelBetweenFloors);
      if Broke(c1) then c1 else c1.(status := APPROACHING, floor := NextFloor(c1))
    else if ArrivingAtFloor(c) then
      var c1 := TimePasses(c, t.arriveAtFloor);
      if Broke(c1) then c1 else c1.(status := ARRIVED)
    else c
  }

  /**
   * `stop`: nothing if the motor is stopped.  A car that has just passed a
   * floor first goes on to the next one; then it decelerates, stops and
   * opens its doors.
   */
  function Stop(t: Timings, c: Car): (r: Car)
    ensures Broke(r) ==> r.doorState == c.doorState
  {
    if c.motorState == STOPPED then c
    else
      var c0 := if c.status == ARRIVED then Continue(t, c) else c;
      var c1 := TimePasses(c0, t.decelerateToStop);
      if Broke(c1) then c1
      else OpenDoors(t, c1.(status := ARRIVED, motorState := STOPPED))
  }

  /** `move`: close the doors, then accelerate away toward the next floor in the motor's direction. */
  function Move(t: Timings, c: Car): (r: Car)
    ensures Broke(r) ==> r.floor == c.floor
    ensures !Broke(r) ==> r.doorState == CLOSED
  {
    var c0 := CloseDoors(t, c);
    var c1 := TimePasses(c0, t.approachFloor);
    if Broke(c1) then c1 else c1.(status := APPROACHING, floor := NextFloor(c1))
  }

  /** `handleInstruction`: the state after carrying out one instruction. */
  function HandleInstruction(t: Timings, c: Car, instruction: Instruction): (r: Car)
  {
    match instruction
    case MOVE_UP => Move(t, c.(motorState := UP))
    case MOVE_DOWN => Move(t, c.(motorState := DOWN))
    case STOP => Stop(t, c)
    case CONTINUE => Continue(t, c)
    case IDLE => c
  }

  /**
   * The time an instruction takes when nothing breaks: the sum of the
   * durations of the timed actions it performs from state `c`.
   */
  function Cost(t: Timings, c: Car, instruction: Instruction): nat
  {
    match instruction
    case MOVE_UP => (if c.doorState == OPEN then t.closeDoors else 0) + t.approachFloor
    case MOVE_DOWN => (if c.doorState == OPEN then t.closeDoors else 0) + t.approachFloor
    case STOP =>
      if c.motorState == STOPPED then 0
      else (if c.status == ARRIVED then t.travelBetweenFloors else 0) + t.decelerateToStop
           + (if c.doorState == OPEN then 0 else t.openDoors)
    case CONTINUE =>
      if ApproachingNextFloor(c) then t.travelBetweenFloors
      else if ArrivingAtFloor(c) then t.arriveAtFloor
      else 0
    case IDLE => 0
  }

  /** Breaking is final: a broken car stays broken and stopped, with no budget. */
  lemma {:induction false} SoundPreserved(t: Timings, c: Car, instruction: Instruction)
    requires Sound(c)
    ensures Sound(HandleInstruction(t, c, instruction))
    ensures Broke(c) ==> Broke(HandleInstruction(t, c, instruction))
  {
    match instruction
    case MOVE_UP =>
    case MOVE_DOWN =>
    case STOP =>
      if c.motorState != STOPPED && c.status == ARRIVED {
        assert !Broke(c);
      }
    case CONTINUE =>
    case IDLE =>
  }

  /** A broken car ignores every instruction: floor, doors and everything else stay as they are. */
  lemma {:induction false} BrokenIsTerminal(t: Timings, c: Car, instruction: Instruction)
    requires Sound(c) && Broke(c)
    ensures HandleInstruction(t, c, instruction) == c
  {
    match instruction
    case MOVE_UP =>
      assert CloseDoors(t, c.(motorState := UP)).timeBeforeBreaking == 0;
    case MOVE_DOWN =>
      assert CloseDoors(t, c.(motorState := DOWN)).timeBeforeBreaking == 0;
    case STOP =>
    case CONTINUE =>
    case IDLE =>
  }

  /** The budget never grows and, once any time has passed, is never negative. */
  lemma {:induction false} BudgetNeverGrows(t: Timings, c: Car, instruction: Instruction)
    requires 0 <= c.timeBeforeBreaking
    ensures 0 <= HandleInstruction(t, c, instruction).timeBeforeBreaking <= c.timeBeforeBreaking
  {
    match instruction
    case MOVE_UP =>
    case MOVE_DOWN =>
    case STOP =>
    case CONTINUE =>
    case IDLE =>
  }

  /**
   * A healthy car completes an instruction exactly when the instruction's
   * total duration is less than the budget, and then the budget drops by
   * that total.
   */
  lemma {:induction false} CompletesWithinBudget(t: Timings, c: Car, instruction: Instruction)
    requires !Broke(c)
    ensures var r := HandleInstruction(t, c, instruction);
            (Broke(r) <==> 0 < Cost(t, c, instruction) && c.timeBeforeBreaking <= Cost(t, c, instruction))
            && (!Broke(r) ==> r.timeBeforeBreaking == c.timeBeforeBreaking - Cost(t, c, instruction))
  {
    match instruction
    case MOVE_UP =>
      MoveWithinBudget(t, c.(motorState := UP));
    case MOVE_DOWN =>
      MoveWithinBudget(t, c.(motorState := DOWN));
    case STOP =>
      if c.motorState != STOPPED {
        StopWithinBudget(t, c);
      }
    case CONTINUE =>
    case IDLE =>
  }

  lemma {:induction false} MoveWithinBudget(t: Timings, c: Car)
    requires !Broke(c)
    ensures var r := Move(t, c);
            var cost := (if c.doorState == OPEN then t.closeDoors else 0) + t.approachFloor;
            (Broke(r) <==> c.timeBeforeBreaking <= cost)
            && (!Broke(r) ==> r.timeBeforeBreaking == c.timeBeforeBreaking - cost)
  {
    var c0 := CloseDoors(t, c);
    if c.doorState == OPEN {
      assert Broke(c0) <==> t.closeDoors >= c.timeBeforeBreaking;
      assert !Broke(c0) ==> c0.timeBeforeBreaking == c.timeBeforeBreaking - t.closeDoors;
    } else {
      assert c0 == c;
    }
  }

  lemma {:induction false} StopWithinBudget(t: Timings, c: Car)
    requires !Broke(c) && c.motorState != STOPPED
    ensures var r := Stop(t, c);
            var cost := (if c.status == ARRIVED then t.travelBetweenFloors else 0) + t.decelerateToStop
                        + (if c.doorState == OPEN then 0 else t.openDoors);
            (Broke(r) <==> c.timeBeforeBreaking <= cost)
            && (!Broke(r) ==> r.timeBeforeBreaking == c.timeBeforeBreaking - cost)
  {
    var c0 := if c.status == ARRIVED then Continue(t, c) else c;
    var spent := if c.status == ARRIVED then t.travelBetweenFloors else 0;
    assert Broke(c0) <==> 0 < spent && c.timeBeforeBreaking <= spent;
    assert !Broke(c0) ==> c0.timeBeforeBreaking == c.timeBeforeBreaking - spent && c0.doorState == c.doorState;
    var c1 := TimePasses(c0, t.decelerateToStop);
    if !Broke(c1) {
      var c2 := c1.(status := ARRIVED, motorState := STOPPED);
      assert c2.timeBeforeBreaking == c.timeBeforeBreaking - spent - t.decelerateToStop;
      assert c2.doorState == c.doorState;
    }
  }

  /** MOVE_UP or MOVE_DOWN, when it completes: doors closed, motor running that way, approaching the next floor. */
  lemma {:induction false} MoveEffect(t: Timings, c: Car, instruction: Instruction)
    requires instruction == MOVE_UP || instruction == MOVE_DOWN
    ensures var r := HandleInstruction(t, c, instruction);
            !Broke(r) ==>
              r.doorState == CLOSED && r.status == APPROACHING
              && r.motorState == (if instruction == MOVE_UP then UP else DOWN)
              && r.floor == Wrap32(c.floor + if instruction == MOVE_UP then 1 else -1)
    ensures Broke(HandleInstruction(t, c, instruction)) ==> HandleInstruction(t, c, instruction).floor == c.floor
  {
    var c' := c.(motorState := if instruction == MOVE_UP then UP else DOWN);
    var c0 := CloseDoors(t, c');
    assert !Broke(c0) ==> c0.motorState == c'.motorState;
  }

  /**
   * STOP, when it completes: stopped with doors open, on the next floor if
   * the car had just passed one; a stopped car is left as it is.
   */
  lemma {:induction false} StopEffect(t: Timings, c: Car)
    ensures c.motorState == STOPPED ==> Stop(t, c) == c
    ensures var r := Stop(t, c);
            c.motorState != STOPPED && !Broke(r) ==>
              r.motorState == STOPPED && r.status == ARRIVED && r.doorState == OPEN
              && r.floor == (if c.status == ARRIVED then NextFloor(c) else c.floor)
  {
    if c.motorState != STOPPED && c.status == ARRIVED {
      var c0 := Continue(t, c);
      assert !Broke(c0) ==> c0.floor == NextFloor(c);
    }
  }

  /**
   * CONTINUE, when it completes: a car that has just passed a floor is now
   * approaching the next; a car approaching a floor has arrived there; a
   * stopped car is left as it is.
   */
  lemma {:induction false} ContinueEffect(t: Timings, c: Car)
    ensures c.motorState == STOPPED ==> Continue(t, c) == c
    ensures var r := Continue(t, c);
            ApproachingNextFloor(c) && !Broke(r) ==>
              r.status == APPROACHING && r.floor == NextFloor(c) && r.motorState == c.motorState
    ensures var r := Continue(t, c);
            ArrivingAtFloor(c) && !Broke(r) ==>
              r.status == ARRIVED && r.floor == c.floor && r.motorState == c.motorState
  {
  }

  /** IDLE leaves everything as it is, the budget included. */
  lemma IdleChangesNothing(t: Timings, c: Car)
    ensures HandleInstruction(t, c, IDLE) == c
  {
  }

  /** The elevator tests: a fresh car moves either way, ignores STOP and CONTINUE, and breaks when the budget is one approach. */
  lemma {:induction false} ElevatorTests()
    ensures HandleInstruction(CONFIG, Initial(1000000), MOVE_DOWN).motorState == DOWN
    ensures HandleInstruction(CONFIG, Initial(1000000), MOVE_UP).motorState == UP
    ensures HandleInstruction(CONFIG, Initial(1000000), STOP).motorState == STOPPED
    ensures HandleInstruction(CONFIG, HandleInstruction(CONFIG, Initial(1000000), STOP), CONTINUE).status == ARRIVED
    ensures HandleInstruction(CONFIG, Initial(CONFIG.approachFloor), MOVE_UP).status == BROKEN
  {
    MoveEffect(CONFIG, Initial(1000000), MOVE_DOWN);
    CompletesWithinBudget(CONFIG, Initial(1000000), MOVE_DOWN);
    MoveEffect(CONFIG, Initial(1000000), MOVE_UP);
    CompletesWithinBudget(CONFIG, Initial(1000000), MOVE_UP);
  }
}
