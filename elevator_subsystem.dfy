/**
 * The elevator subsystem: the controller that owns one car and its floor
 * buttons, keeps the car's two request lists, and derives the next
 * instruction for the car from its state and those lists.
 */
module ElevatorSubsystems {
  import opened Wire
  import opened MotorStates
  import opened Instructions
  import opened FloorRequests
  import opened ElevatorMessages
  import opened RequestLists
  import opened ElevatorButtons
  import Cars
  import Elevators

  /** Some passenger in service is going below `floor`, or some passenger waits below it. */
  predicate SomeBelow(floor: int, l: Lists)
  {
    (exists fr :: fr in l.inService && fr.destinationFloor < floor)
    || (exists fr :: fr in l.pickups && fr.sourceFloor < floor)
  }

  /** Some passenger in service is going above `floor`, or some passenger waits above it. */
  predicate SomeAbove(floor: int, l: Lists)
  {
    (exists fr :: fr in l.inService && fr.destinationFloor > floor)
    || (exists fr :: fr in l.pickups && fr.sourceFloor > floor)
  }

  /** Some passenger in service gets off at `floor`. */
  predicate DropOffAt(floor: int, l: Lists)
  {
    exists fr :: fr in l.inService && fr.destinationFloor == floor
  }

  /** Some passenger waits at `floor`. */
  predicate PickUpAt(floor: int, l: Lists)
  {
    exists fr :: fr in l.pickups && fr.sourceFloor == floor
  }

  /**
   * `getNextInstruction`: a stopped car heads for work below first, then
   * above, and otherwise idles; a moving car stops where a passenger gets
   * off, and where one gets on if the work ahead lies that way or there is
   * nothing further on; otherwise it carries on.
   */
  function NextInstruction(em: ElevatorMessage, l: Lists): (r: Instruction)
    ensures HasStopped(em) ==> r == MOVE_DOWN || r == MOVE_UP || r == IDLE
    ensures !HasStopped(em) ==> r == STOP || r == CONTINUE
  {
    var floor := em.floor;
    if HasStopped(em) then
      if SomeBelow(floor, l) then MOVE_DOWN
      else if SomeAbove(floor, l) then MOVE_UP
      else IDLE
    else if DropOffAt(floor, l) then STOP
    else if PickUpAt(floor, l) && em.motorState == DOWN && (LeadsDown(l.inService, l.pickups) || !SomeBelow(floor, l)) then STOP
    else if PickUpAt(floor, l) && em.motorState == UP && (LeadsUp(l.inService, l.pickups) || !SomeAbove(floor, l)) then STOP
    else CONTINUE
  }

  /** A stopped car moves down exactly when there is work below, up exactly when there is work only above, and idles otherwise. */
  lemma StoppedCarChoice(em: ElevatorMessage, l: Lists)
    requires HasStopped(em)
    ensures NextInstruction(em, l) == MOVE_DOWN <==> SomeBelow(em.floor, l)
    ensures NextInstruction(em, l) == MOVE_UP <==> !SomeBelow(em.floor, l) && SomeAbove(em.floor, l)
    ensures NextInstruction(em, l) == IDLE <==> !SomeBelow(em.floor, l) && !SomeAbove(em.floor, l)
  {
  }

  /** A moving car always stops where a passenger gets off, and stops only where someone gets on or off. */
  lemma MovingCarStops(em: ElevatorMessage, l: Lists)
    requires !HasStopped(em)
    ensures DropOffAt(em.floor, l) ==> NextInstruction(em, l) == STOP
    ensures NextInstruction(em, l) == STOP ==> DropOffAt(em.floor, l) || PickUpAt(em.floor, l)
  {
  }

  /**
   * A car passes a waiting passenger only when nobody gets off here and the
   * work ahead does not lead the way it is going but more of it lies further on.
   */
  lemma PassesWaitingPassenger(em: ElevatorMessage, l: Lists)
    requires PickUpAt(em.floor, l) && NextInstruction(em, l) == CONTINUE
    ensures !DropOffAt(em.floor, l)
    ensures em.motorState == DOWN ==> !LeadsDown(l.inService, l.pickups) && SomeBelow(em.floor, l)
    ensures em.motorState == UP ==> !LeadsUp(l.inService, l.pickups) && SomeAbove(em.floor, l)
  {
  }

  /** `hasRequests` as written: both lists must be non-empty. */
  predicate HasRequests(l: Lists)
  {
    l.inService != [] && l.pickups != []
  }

  /** Whether the car has any work at all, as the doc comment of `hasRequests` describes it. */
  function HasAnyRequests(l: Lists): (r: bool)
    ensures r <==> exists fr :: fr in l.inService + l.pickups
  {
    assert l.inService != [] ==> l.inService[0] in l.inService + l.pickups;
    assert l.pickups != [] ==> l.pickups[0] in l.inService + l.pickups;
    l.inService != [] || l.pickups != []
  }

  /** With passengers on board and nobody left to collect, the written test reports no work. */
  lemma HasRequestsMissesOneSidedWork(fr: FloorRequest)
    ensures !HasRequests(Lists([fr], []))
    ensures HasAnyRequests(Lists([fr], []))
    ensures !HasRequests(Lists([], [fr])) && HasAnyRequests(Lists([], [fr]))
  {
  }

  /** The corrected test is implied by the written one and also holds whenever either list is non-empty. */
  lemma HasAnyRequestsWeaker(l: Lists)
    ensures HasRequests(l) ==> HasAnyRequests(l)
    ensures HasAnyRequests(l) <==> l.inService != [] || l.pickups != []
  {
  }

  /** The lists of the elevator test that stops at its last request, after routing five requests at floor 7. */
  function StopsAtLastRequestLists(): Lists
  {
    var em := ElevatorMessage(1, 7, STOPPED, DoorStates.OPEN, Statuses.ARRIVED);
    var l0 := Lists([], []);
    var l1 := Filed(FloorRequest(0, 7, 3), em.floor, l0);
    var l2 := Filed(FloorRequest(0, 5, 4), em.floor, l1);
    var l3 := Filed(FloorRequest(0, 5, 1), em.floor, l2);
    var l4 := Filed(FloorRequest(0, 3, 2), em.floor, l3);
    Filed(FloorRequest(0, 4, 1), em.floor, l4)
  }

  /** The test where the car, going down, stops at floor 5 for two waiting passengers. */
  lemma {:induction false} StopsAtLastRequestTest()
    ensures var l := BoardThenAlight(7, StopsAtLastRequestLists());
            NextInstruction(ElevatorMessage(1, 5, DOWN, DoorStates.CLOSED, Statuses.APPROACHING), l) == STOP
  {
    var l0 := StopsAtLastRequestLists();
    assert l0 == Lists([FloorRequest(0, 7, 3)],
      [FloorRequest(0, 5, 4), FloorRequest(0, 5, 1), FloorRequest(0, 3, 2), FloorRequest(0, 4, 1)]);
    assert Boarding(7, l0) == [];
    var l := BoardThenAlight(7, l0);
    assert l.inService == [FloorRequest(0, 7, 3)];
    assert FloorRequest(0, 5, 4) in l.pickups;
  }

  /** The tests where a stopped car moves down, or up, toward a waiting passenger. */
  lemma {:induction false} StoppedCarTests()
    ensures var em := ElevatorMessage(1, 2, STOPPED, DoorStates.CLOSED, Statuses.ARRIVED);
            NextInstruction(em, Filed(FloorRequest(0, 1, 2), em.floor, Lists([], []))) == MOVE_DOWN
    ensures var em := ElevatorMessage(1, 1, STOPPED, DoorStates.CLOSED, Statuses.ARRIVED);
            NextInstruction(em, Filed(FloorRequest(0, 5, 2), em.floor, Lists([], []))) == MOVE_UP
  {
    var em := ElevatorMessage(1, 2, STOPPED, DoorStates.CLOSED, Statuses.ARRIVED);
    assert FloorRequest(0, 1, 2) in Filed(FloorRequest(0, 1, 2), em.floor, Lists([], [])).pickups;
    var em1 := ElevatorMessage(1, 1, STOPPED, DoorStates.CLOSED, Statuses.ARRIVED);
    var l1 := Filed(FloorRequest(0, 5, 2), em1.floor, Lists([], []));
    assert l1 == Lists([], [FloorRequest(0, 5, 2)]);
    assert FloorRequest(0, 5, 2) in l1.pickups;
  }

  /** The tests where a moving car stops for a passenger getting off, and carries on past an empty floor. */
  lemma {:induction false} MovingCarTests()
    ensures var em := ElevatorMessage(1, 2, DOWN, DoorStates.CLOSED, Statuses.APPROACHING);
            var l := Filed(FloorRequest(0, 2, 3), em.floor, Lists([], []));
            NextInstruction(ElevatorMessage(1, 3, UP, DoorStates.CLOSED, Statuses.APPROACHING), l) == STOP
    ensures var em := ElevatorMessage(1, 1, UP, DoorStates.CLOSED, Statuses.ARRIVED);
            NextInstruction(em, Filed(FloorRequest(0, 3, 5), em.floor, Lists([], []))) == CONTINUE
  {
    var em := ElevatorMessage(1, 2, DOWN, DoorStates.CLOSED, Statuses.APPROACHING);
    assert FloorRequest(0, 2, 3) in Filed(FloorRequest(0, 2, 3), em.floor, Lists([], [])).inService;
  }

  /** The subsystem object: the car, its buttons by floor, and the two request lists updated in place. */
  class ElevatorSubsystem {
    const elevator: Elevators.Elevator
    const buttons: map<Int32, ElevatorButton>
    var floorRequestsInService: seq<FloorRequest>
    var floorRequestsAssigned: seq<FloorRequest>

    /** Each button is keyed by its own floor number, and no two floors share a button. */
    predicate Valid()
    {
      (forall k :: k in buttons ==> buttons[k].num == k)
      && (forall j, k :: j in buttons && k in buttons && j != k ==> buttons[j] != buttons[k])
    }

    function Lamps(): set<ElevatorButton>
    {
      set k | k in buttons :: buttons[k]
    }

    /** The floors whose button lamp is lit. */
    function LitFloors(): set<Int32>
      reads Lamps()
    {
      set k | k in buttons && buttons[k].isLit
    }

    function Requests(): Lists
      reads this
    {
      Lists(floorRequestsInService, floorRequestsAssigned)
    }

    /** A new subsystem: a fresh car with the given breaking budget, one unlit button per floor 1..numFloors, no requests. */
    constructor (elevatorID: Int32, numFloors: Int32, timeBeforeBreaking: Int32)
      ensures Valid()
      ensures elevator.id == elevatorID && elevator.Snapshot() == Cars.Initial(timeBeforeBreaking)
      ensures forall k: Int32 :: k in buttons <==> 1 <= k <= numFloors
      ensures LitFloors() == {}
      ensures Requests() == Lists([], [])
    {
      var car := new Elevators.Elevator(elevatorID, timeBeforeBreaking, Cars.CONFIG);
      var m: map<Int32, ElevatorButton> := map[];
      var i := 1;
      while i <= numFloors
        invariant 1 <= i <= if numFloors < 1 then 1 else numFloors as int + 1
        invariant forall k: Int32 :: k in m <==> 1 <= k < i
        invariant car.id == elevatorID && car.Snapshot() == Cars.Initial(timeBeforeBreaking)
        invariant forall k :: k in m ==> m[k].num == k && !m[k].isLit
        invariant forall j, k :: j in m && k in m && j != k ==> m[j] != m[k]
      {
        var b := new ElevatorButton(i);
        m := m[i := b];
        i := i + 1;
      }
      elevator := car;
      buttons := m;
      floorRequestsInService := [];
      floorRequestsAssigned := [];
    }

    /** `updateFloorRequest`: file a request the scheduler sent, given the car's reported state. */
    method UpdateFloorRequest(fr: FloorRequest, e: ElevatorMessage)
      modifies this
      ensures Requests() == Filed(fr, e.floor, old(Requests()))
    {
      if fr.sourceFloor == e.floor {
        floorRequestsInService := floorRequestsInService + [fr];
      } else {
        floorRequestsAssigned := floorRequestsAssigned + [fr];
      }
    }

    /**
     * `handleRequestUpdate`: at a stop, the passengers waiting here board
     * and light their destination buttons, then those whose destination is
     * here get off, and this floor's button goes dark.  A moving car changes
     * nothing.  Every button it touches must exist.
     */
    method HandleRequestUpdate(e: ElevatorMessage)
      requires Valid()
      requires HasStopped(e) ==> e.floor in buttons
      requires HasStopped(e) ==> forall fr :: fr in floorRequestsAssigned && fr.sourceFloor == e.floor ==> fr.destinationFloor in buttons
      modifies this, Lamps()
      ensures !HasStopped(e) ==> Requests() == old(Requests()) && LitFloors() == old(LitFloors())
      ensures HasStopped(e) ==> Requests() == BoardThenAlight(e.floor, old(Requests()))
      ensures HasStopped(e) ==>
                LitFloors() == (old(LitFloors()) + Destinations(Boarding(e.floor, old(Requests())))) - {e.floor}
    {
      if e.motorState == STOPPED {
        var floor := e.floor;
        ghost var lamps := Destinations(Boarding(floor, Requests()));
        FilterMembers(floorRequestsAssigned, SourceAt(floor));
        assert lamps <= buttons.Keys;
        Board(floor);
        assert LitFloors() == old(LitFloors()) + lamps;
        Alight(floor);
        ghost var lit := LitFloors();
        buttons[floor].LightOff();
        assert LitFloors() == lit - {floor};
      }
    }

    /** The first loop of `handleRequestUpdate`: passengers waiting at `floor` board and light their destinations. */
    method Board(floor: Int32)
      requires Valid()
      requires forall fr :: fr in floorRequestsAssigned && fr.sourceFloor == floor ==> fr.destinationFloor in buttons
      modifies this, Lamps()
      ensures floorRequestsInService == old(floorRequestsInService) + Boarding(floor, old(Requests()))
      ensures floorRequestsAssigned == Reject(old(floorRequestsAssigned), SourceAt(floor))
      ensures forall k :: k in buttons ==>
                (buttons[k].isLit <==> old(buttons[k].isLit) || k in Destinations(Boarding(floor, old(Requests()))))
    {
      var boarded, waiting := Scan(floor, floorRequestsAssigned);
      floorRequestsInService := floorRequestsInService + boarded;
      floorRequestsAssigned := waiting;
    }

    /**
     * The iterator loop of `Board` over the waiting list `pickups`: each
     * request whose source is `floor` is removed in place, lights its
     * destination and joins `boarded`.
     */
    method Scan(floor: Int32, pickups: seq<FloorRequest>) returns (boarded: seq<FloorRequest>, waiting: seq<FloorRequest>)
      requires Valid()
      requires forall fr :: fr in pickups && fr.sourceFloor == floor ==> fr.destinationFloor in buttons
      modifies Lamps()
      ensures boarded == Select(pickups, SourceAt(floor))
      ensures waiting == Reject(pickups, SourceAt(floor))
      ensures forall k :: k in buttons ==> (buttons[k].isLit <==> old(buttons[k].isLit) || k in Destinations(boarded))
    {
      waiting := pickups;
      boarded := [];
      ghost var lamps: set<Int32> := {};
      var i := 0;
      ghost var j := 0;
      assert forall n :: 0 <= n < |pickups| && pickups[n].sourceFloor == floor ==> pickups[n].destinationFloor in buttons;
      while i < |waiting|
        invariant 0 <= j <= |pickups|
        invariant waiting == Reject(pickups[..j], SourceAt(floor)) + pickups[j..]
        invariant i == |Reject(pickups[..j], SourceAt(floor))|
        invariant boarded == Select(pickups[..j], SourceAt(floor))
        invariant lamps == Destinations(boarded)
        invariant forall k :: k in buttons ==> (buttons[k].isLit <==> old(buttons[k].isLit) || k in lamps)
        decreases |pickups| - j
      {
        RemovalStep(pickups, j, SourceAt(floor), waiting, i);
        var fr := waiting[i];
        if fr.sourceFloor == floor {
          LightDestination(fr.destinationFloor);
          DestinationsSnoc(boarded, fr);
          boarded := boarded + [fr];
          lamps := lamps + {fr.destinationFloor};
          waiting := waiting[..i] + waiting[i + 1..];
        } else {
          i := i + 1;
        }
        j := j + 1;
      }
      assert pickups[..j] == pickups;
    }

    /** `buttons.get(d).lightOn()`: the lamp of floor `d` comes on, and no other lamp changes. */
    method LightDestination(d: Int32)
      requires Valid() && d in buttons
      modifies buttons[d]
      ensures forall k :: k in buttons ==> (buttons[k].isLit <==> k == d || old(buttons[k].isLit))
    {
      buttons[d].LightOn();
      assert forall k :: k in buttons && k != d ==> buttons[k] != buttons[d];
    }

    /** The second loop of `handleRequestUpdate`: passengers in service whose destination is `floor` get off. */
    method Alight(floor: Int32)
      modifies this
      ensures floorRequestsInService == Reject(old(floorRequestsInService), DestinationAt(floor))
      ensures floorRequestsAssigned == old(floorRequestsAssigned)
    {
      ghost var carried := floorRequestsInService;
      var i := 0;
      ghost var j := 0;
      while i < |floorRequestsInService|
        invariant 0 <= j <= |carried|
        invariant floorRequestsInService == Reject(carried[..j], DestinationAt(floor)) + carried[j..]
        invariant i == |Reject(carried[..j], DestinationAt(floor))|
        invariant floorRequestsAssigned == old(floorRequestsAssigned)
        decreases |carried| - j
      {
        RemovalStep(carried, j, DestinationAt(floor), floorRequestsInService, i);
        if floorRequestsInService[i].destinationFloor == floor {
          floorRequestsInService := floorRequestsInService[..i] + floorRequestsInService[i + 1..];
        } else {
          i := i + 1;
        }
        j := j + 1;
      }
      assert carried[..j] == carried;
    }

    /** `getNextInstruction`: the instruction for the car in state `em`, leaving both lists as they are. */
    method GetNextInstruction(em: ElevatorMessage) returns (instruction: Instruction)
      ensures instruction == NextInstruction(em, Requests())
    {
      var floor := em.floor;
      if HasStopped(em) {
        var down := ShouldElevatorMoveDown(em);
        if down {
          return MOVE_DOWN;
        }
        var up := ShouldElevatorMoveUp(em);
        if up {
          return MOVE_UP;
        }
        return IDLE;
      }
      var destination := IsDestination(floor);
      if destination {
        return STOP;
      }
      var source := IsSource(floor);
      if source {
        if em.motorState == DOWN {
          if LeadsDown(floorRequestsInService, floorRequestsAssigned) {
            return STOP;
          }
          var down := ShouldElevatorMoveDown(em);
          if !down {
            return STOP;
          }
        }
        if em.motorState == UP {
          if LeadsUp(floorRequestsInService, floorRequestsAssigned) {
            return STOP;
          }
          var up := ShouldElevatorMoveUp(em);
          if !up {
            return STOP;
          }
        }
      }
      return CONTINUE;
    }

    /** `shouldElevatorMoveDown`: a search of both lists for work below the car. */
    method ShouldElevatorMoveDown(em: ElevatorMessage) returns (b: bool)
      ensures b == SomeBelow(em.floor, Requests())
    {
      var floor := em.floor;
      for i := 0 to |floorRequestsInService|
        invariant forall k :: 0 <= k < i ==> floorRequestsInService[k].destinationFloor >= floor
      {
        if floorRequestsInService[i].destinationFloor < floor {
          return true;
        }
      }
      for i := 0 to |floorRequestsAssigned|
        invariant forall k :: 0 <= k < i ==> floorRequestsAssigned[k].sourceFloor >= floor
      {
        if floorRequestsAssigned[i].sourceFloor < floor {
          return true;
        }
      }
      return false;
    }

    /** `shouldElevatorMoveUp`: a search of both lists for work above the car. */
    method ShouldElevatorMoveUp(em: ElevatorMessage) returns (b: bool)
      ensures b == SomeAbove(em.floor, Requests())
    {
      var floor := em.floor;
      for i := 0 to |floorRequestsInService|
        invariant forall k :: 0 <= k < i ==> floorRequestsInService[k].destinationFloor <= floor
      {
        if floorRequestsInService[i].destinationFloor > floor {
          return true;
        }
      }
      for i := 0 to |floorRequestsAssigned|
        invariant forall k :: 0 <= k < i ==> floorRequestsAssigned[k].sourceFloor <= floor
      {
        if floorRequestsAssigned[i].sourceFloor > floor {
          return true;
        }
      }
      return false;
    }

    /** `isDestination`: whether a passenger in service gets off at `floor`. */
    method IsDestination(floor: Int32) returns (b: bool)
      ensures b == DropOffAt(floor, Requests())
    {
      for i := 0 to |floorRequestsInService|
        invariant forall k :: 0 <= k < i ==> floorRequestsInService[k].destinationFloor != floor
      {
        if floorRequestsInService[i].destinationFloor == floor {
          return true;
        }
      }
      return false;
    }

    /** `isSource`: whether a passenger waits at `floor`. */
    method IsSource(floor: Int32) returns (b: bool)
      ensures b == PickUpAt(floor, Requests())
    {
      for i := 0 to |floorRequestsAssigned|
        invariant forall k :: 0 <= k < i ==> floorRequestsAssigned[k].sourceFloor != floor
      {
        if floorRequestsAssigned[i].sourceFloor == floor {
          return true;
        }
      }
      return false;
    }
  }

  /** The destination floors of some requests. */
  function Destinations(s: seq<FloorRequest>): set<Int32>
  {
    set fr | fr in s :: fr.destinationFloor
  }

  lemma DestinationsSnoc(s: seq<FloorRequest>, fr: FloorRequest)
    ensures Destinations(s + [fr]) == Destinations(s) + {fr.destinationFloor}
  {
    assert forall x :: x in s + [fr] <==> x in s || x == fr;
  }
}
