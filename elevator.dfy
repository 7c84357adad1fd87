/** The Java `Elevator` class: a car whose state its methods update in place. */
module Elevators {
  import opened Wire
  import opened MotorStates
  import opened DoorStates
  import opened Statuses
  import opened Instructions
  import ElevatorMessages
  import Cars
  class Elevator {
    const id: Int32
    const timings: Cars.Timings
    var motorState: MotorState
    var floor: Int32
    var doorState: DoorState
    var status: Status
    var timeBeforeBreaking: Int32

    /** The car's current state. */
    function Snapshot(): Cars.Car
      reads this
    {
      Cars.Car(floor, motorState, doorState, status, timeBeforeBreaking)
    }

    constructor (id: Int32, timeBeforeBreaking: Int32, timings: Cars.Timings)
      ensures this.id == id && this.timings == timings
      ensures Snapshot() == Cars.Initial(timeBeforeBreaking)
    {
      this.id := id;
      this.timings := timings;
      motorState := STOPPED;
      floor := 1;
      doorState := CLOSED;
      status := ARRIVED;
      this.timeBeforeBreaking := timeBeforeBreaking;
    }

    method HandleInstruction(instruction: Instruction)
      modifies this
      ensures Snapshot() == Cars.HandleInstruction(timings, old(Snapshot()), instruction)
    {
      match instruction {
        case MOVE_UP =>
          motorState := UP;
          Move();
        case MOVE_DOWN =>
          motorState := DOWN;
          Move();
        case STOP =>
          Stop();
        case CONTINUE =>
          ContinueElevator();
        case IDLE =>
      }
    }

    predicate IsApproachingNextFloor()
      reads this
    {
      Cars.ApproachingNextFloor(Snapshot())
    }

    predicate IsArrivingAtFloor()
      reads this
    {
      Cars.ArrivingAtFloor(Snapshot())
    }

    /** `getState`: the snapshot the car reports, under its identifier. */
    function GetState(): (m: ElevatorMessages.ElevatorMessage)
      reads this
      ensures m.id == id && m.floor == floor && m.motorState == motorState
      ensures m.doorState == doorState && m.status == status
    {
      ElevatorMessages.ElevatorMessage(id, floor, motorState, doorState, status)
    }

    method ContinueElevator()
      modifies this
      ensures Snapshot() == Cars.Continue(timings, old(Snapshot()))
    {
      if IsApproachingNextFloor() {
        TimePassesInElevator(timings.travelBetweenFloors);
        if BrokeWhilePerformingAction() {
          return;
        }
        status := APPROACHING;
        floor := Wrap32(floor + if motorState == UP then 1 else -1);
      } else if IsArrivingAtFloor() {
        TimePassesInElevator(timings.arriveAtFloor);
        if BrokeWhilePerformingAction() {
          return;
        }
        status := ARRIVED;
      }
    }

    method Stop()
      modifies this
      ensures Snapshot() == Cars.Stop(timings, old(Snapshot()))
    {
      if motorState == STOPPED {
        return;
      }
      if status == ARRIVED {
        ContinueElevator();
      }
      TimePassesInElevator(timings.decelerateToStop);
      if BrokeWhilePerformingAction() {
        return;
      }
      status := ARRIVED;
      motorState := STOPPED;
      OpenDoors();
    }

    method Move()
      modifies this
      ensures Snapshot() == Cars.Move(timings, old(Snapshot()))
    {
      CloseDoors();
      TimePassesInElevator(timings.approachFloor);
      if BrokeWhilePerformingAction() {
        return;
      }
      status := APPROACHING;
      floor := Wrap32(floor + if motorState == UP then 1 else -1);
    }

    method OpenDoors()
      modifies this
      ensures Snapshot() == Cars.OpenDoors(timings, old(Snapshot()))
    {
      if doorState == OPEN {
        return;
      }
      TimePassesInElevator(timings.openDoors);
      if BrokeWhilePerformingAction() {
        return;
      }
      doorState := OPEN;
    }

    method CloseDoors()
      modifies this
      ensures Snapshot() == Cars.CloseDoors(timings, old(Snapshot()))
    {
      if doorState == CLOSED {
        return;
      }
      TimePassesInElevator(timings.closeDoors);
      if BrokeWhilePerformingAction() {
        return;
      }
      doorState := CLOSED;
    }

    method TimePassesInElevator(duration: Cars.Duration)
      modifies this
      ensures Snapshot() == Cars.TimePasses(old(Snapshot()), duration)
    {
      if duration >= timeBeforeBreaking {
        timeBeforeBreaking := 0;
        status := BROKEN;
        motorState := STOPPED;
      } else {
        timeBeforeBreaking := timeBeforeBreaking - duration;
      }
    }

    predicate BrokeWhilePerformingAction()
      reads this
    {
      status == BROKEN
    }
  }
}
