/**
 * The scheduler: the object whose maps and waitlist the dispatch loop
 * updates in place, and the handling of one received message.  Every send
 * is recorded in `outbox` instead of going to a socket.
 */
module Schedulers {
  import opened Wire
  import opened MotorStates
  import opened Statuses
  import opened FloorRequests
  import opened ElevatorMessages
  import opened RequestLists
  import opened Dispatch
  import Helper
  import Messages
  import RequestListMessages
  import Registers

  /** Everything one message can change: the fleet, the waitlist and the two flags of the run loop. */
  datatype SchedulerState = SchedulerState(fleet: Fleet, waitlist: seq<FloorRequest>, running: bool, elevatorAdded: bool)

  /** A request list sent to elevator `id`. */
  function RequestsTo(f: Fleet, frs: seq<FloorRequest>, id: Int32): Outgoing
    requires id in f.ports
  {
    Outgoing(Messages.RequestList(RequestListMessages.RequestListMessage(frs)), f.ports[id])
  }

  /** What a message other than an elevator-state message demands of the fleet before it is handled. */
  predicate Acceptable(s: SchedulerState, m: Messages.Message)
  {
    Valid(s.fleet) && (m.ElevatorState? ==> Registered(s.fleet, m.state.id))
  }

  /** A floor request: sent at once to its best elevator when that one is waiting, else queued; the floor gets an empty reply. */
  function Arrival(s: SchedulerState, fr: FloorRequest): (r: (SchedulerState, seq<Outgoing>))
    requires Valid(s.fleet)
    ensures Valid(r.0.fleet)
  {
    var f := s.fleet;
    BestElevatorSpec(f, fr);
    var id := BestElevator(f, fr);
    var reply := Outgoing(Messages.Response, Helper.FLOOR_PORT);
    if id != -1 && Waiting(f, id) then
      (s.(fleet := Send(f, [fr], id)), [RequestsTo(f, [fr], id), reply])
    else
      (s.(waitlist := s.waitlist + [fr]), [reply])
  }

  /** A broken elevator: retired as `handleBrokenElevator` does, then told to terminate, and its port forgotten. */
  function Breakdown(s: SchedulerState, em: ElevatorMessage): (r: (SchedulerState, seq<Outgoing>))
    requires Valid(s.fleet) && Registered(s.fleet, em.id)
    ensures Valid(r.0.fleet)
  {
    var broken := HandleBroken(s.fleet, s.waitlist, em.id);
    var g := broken.0;
    (s.(fleet := g.(ports := g.ports - {em.id}), waitlist := broken.1),
     broken.2 + [Outgoing(Messages.Terminate, s.fleet.ports[em.id])])
  }

  /**
   * A working elevator's snapshot: recorded, then answered as `Respond`
   * says.
   */
  function Snapshot(s: SchedulerState, em: ElevatorMessage): (r: (SchedulerState, seq<Outgoing>))
    requires Valid(s.fleet) && Registered(s.fleet, em.id)
    ensures Valid(r.0.fleet)
  {
    UpdateStateValid(s.fleet, em);
    Respond(s.(fleet := UpdateState(s.fleet, em)), em.id)
  }

  /**
   * The answer to a recorded snapshot of elevator `id`: it collects its next
   * batch from the waitlist and is sent it, or sent an empty list while it
   * still has work; a waiting elevator with nothing to collect is not answered.
   */
  function Respond(s: SchedulerState, id: Int32): (r: (SchedulerState, seq<Outgoing>))
    requires Valid(s.fleet) && Registered(s.fleet, id) && id in s.fleet.elevators
    ensures Valid(r.0.fleet)
  {
    var g := s.fleet;
    var batch := Claim(g, id, s.waitlist, STOPPED, Held(g, id));
    if batch.0 != [] || !Waiting(g, id) then
      (s.(fleet := Send(g, batch.0, id), waitlist := batch.1), [RequestsTo(g, batch.0, id)])
    else
      (s.(waitlist := batch.1), [])
  }

  /**
   * One turn of the inner loop of `run`: a floor request, a snapshot of a
   * broken or a working elevator, a registration (recorded and answered) or
   * a terminate request (the run stops and the floor is answered); anything
   * else is ignored.
   */
  function Turn(s: SchedulerState, m: Messages.Message): (r: (SchedulerState, seq<Outgoing>))
    requires Acceptable(s, m)
    ensures Valid(r.0.fleet)
  {
    match m
    case Request(fr) => Arrival(s, fr)
    case ElevatorState(em) => if em.status == BROKEN then Breakdown(s, em) else Snapshot(s, em)
    case Registration(rm) =>
      (s.(fleet := Register(s.fleet, rm.id, rm.portNumber), elevatorAdded := true),
       [Outgoing(Messages.Response, rm.portNumber)])
    case Terminate =>
      (s.(running := false), [Outgoing(Messages.Response, Helper.FLOOR_PORT)])
    case _ =>
      (s, [])
  }

  /** `checkIfElevatorsHaveAllTerminated`: some elevator registered, and none is left. */
  predicate AllTerminated(s: SchedulerState)
  {
    s.elevatorAdded && s.fleet.ports == map[]
  }

  /** A floor request is never lost: it is filed with an elevator or put on the waitlist. */
  lemma {:induction false} FloorRequestJoinsPool(s: SchedulerState, fr: FloorRequest)
    requires Valid(s.fleet)
    ensures var r := Arrival(s, fr);
            Pool(r.0.fleet, r.0.waitlist) == Pool(s.fleet, s.waitlist) + multiset{fr}
  {
    var f, wl := s.fleet, s.waitlist;
    BestElevatorSpec(f, fr);
    var id := BestElevator(f, fr);
    var r := Arrival(s, fr);
    if id != -1 && Waiting(f, id) {
      assert r.0.fleet == Send(f, [fr], id) && r.0.waitlist == wl;
      SendConserves(f, wl, [fr], id);
    } else {
      assert r.0.fleet == f && r.0.waitlist == wl + [fr];
      assert multiset(wl + [fr]) == multiset(wl) + multiset{fr};
    }
  }

  /** Whatever happens to a floor request, the floor subsystem is answered last. */
  lemma ArrivalAnswersFloor(s: SchedulerState, fr: FloorRequest)
    requires Valid(s.fleet)
    ensures var r := Arrival(s, fr);
            |r.1| >= 1 && r.1[|r.1| - 1] == Outgoing(Messages.Response, Helper.FLOOR_PORT)
  {
  }

  /**
   * A snapshot of a working elevator keeps every request except those of the
   * passengers who got off at its stop.
   */
  lemma SnapshotKeepsPool(s: SchedulerState, em: ElevatorMessage)
    requires Valid(s.fleet) && Registered(s.fleet, em.id)
    ensures var r := Snapshot(s, em);
            var off := if HasStopped(em) then multiset(Select(s.fleet.inService[em.id], DestinationAt(em.floor))) else multiset{};
            Pool(r.0.fleet, r.0.waitlist) + off == Pool(s.fleet, s.waitlist)
  {
    UpdateStateValid(s.fleet, em);
    UpdateStateConserves(s.fleet, s.waitlist, em);
    RespondKeepsPool(s.(fleet := UpdateState(s.fleet, em)), em.id);
  }

  /** Answering an elevator only moves requests from the waitlist into its lists. */
  lemma RespondKeepsPool(s: SchedulerState, id: Int32)
    requires Valid(s.fleet) && Registered(s.fleet, id) && id in s.fleet.elevators
    ensures var r := Respond(s, id); Pool(r.0.fleet, r.0.waitlist) == Pool(s.fleet, s.waitlist)
  {
    var g, wl := s.fleet, s.waitlist;
    ClaimThenSendConserves(g, wl, id);
    var batch := Claim(g, id, wl, STOPPED, Held(g, id));
    if !(batch.0 != [] || !Waiting(g, id)) {
      ClaimPartitions(g, id, wl, STOPPED, Held(g, id));
      assert multiset(batch.1) == multiset(wl);
    }
  }

  /**
   * A broken elevator is told to terminate and forgotten; its waiting
   * passengers are kept and only its passengers in service are lost.
   */
  lemma {:induction false} BreakdownRetires(s: SchedulerState, em: ElevatorMessage)
    requires Valid(s.fleet) && Registered(s.fleet, em.id)
    ensures var r := Breakdown(s, em);
            Pool(r.0.fleet, r.0.waitlist) + multiset(s.fleet.inService[em.id]) == Pool(s.fleet, s.waitlist)
    ensures var r := Breakdown(s, em);
            em.id !in r.0.fleet.ports && em.id !in r.0.fleet.elevators && !Registered(r.0.fleet, em.id)
            && r.1[|r.1| - 1] == Outgoing(Messages.Terminate, s.fleet.ports[em.id])
  {
    HandleBrokenDropsOnlyInService(s.fleet, s.waitlist, em.id);
    var broken := HandleBroken(s.fleet, s.waitlist, em.id);
    var g := broken.0;
    assert Pool(g.(ports := g.ports - {em.id}), broken.1) == Pool(g, broken.1);
  }

  /** When the last registered elevator breaks down, the run is over. */
  lemma LastBreakdownEndsRun(s: SchedulerState, em: ElevatorMessage)
    requires Valid(s.fleet) && Registered(s.fleet, em.id)
    requires s.elevatorAdded && s.fleet.ports.Keys == {em.id}
    ensures AllTerminated(Breakdown(s, em).0)
  {
    var r := Breakdown(s, em);
    assert r.0.fleet.ports.Keys == {};
  }

  /** After a registration the run cannot be over: that elevator's port is known. */
  lemma RegistrationKeepsRunning(s: SchedulerState, rm: Registers.Register)
    requires Acceptable(s, Messages.Registration(rm))
    ensures var r := Turn(s, Messages.Registration(rm));
            r.0.elevatorAdded && !AllTerminated(r.0) && Waiting(r.0.fleet, rm.id)
  {
    var r := Turn(s, Messages.Registration(rm));
    assert rm.id in r.0.fleet.ports;
  }

  /** One step of `Claim` at position `i` of the waitlist. */
  lemma ClaimAt(f: Fleet, id: Int32, wl: seq<FloorRequest>, i: nat, dir: MotorState, count: int)
    requires Valid(f) && i < |wl| && count < MAX_CAPACITY
    ensures var fr := wl[i];
            var rest := Claim(f, id, wl[i + 1..], Heading(fr), count + 1);
            (dir == STOPPED || dir == Heading(fr)) && BestElevator(f, fr) == id ==>
              Claim(f, id, wl[i..], dir, count) == ([fr] + rest.0, rest.1)
    ensures var fr := wl[i];
            var rest := Claim(f, id, wl[i + 1..], dir, count);
            !((dir == STOPPED || dir == Heading(fr)) && BestElevator(f, fr) == id) ==>
              Claim(f, id, wl[i..], dir, count) == (rest.0, [fr] + rest.1)
  {
    assert wl[i..][0] == wl[i] && wl[i..][1..] == wl[i + 1..];
  }

  /**
   * The loop of `getFloorRequests` has taken `taken` and kept `wl[..i]` so
   * far: taking `wl[i]` out of the list keeps the rest of the scan on course.
   */
  lemma ClaimTake(f: Fleet, id: Int32, wl: seq<FloorRequest>, i: nat, dir: MotorState, count: int,
                  taken: seq<FloorRequest>, whole: (seq<FloorRequest>, seq<FloorRequest>))
    requires Valid(f) && i < |wl| && count < MAX_CAPACITY
    requires taken + Claim(f, id, wl[i..], dir, count).0 == whole.0
    requires wl[..i] + Claim(f, id, wl[i..], dir, count).1 == whole.1
    requires (dir == STOPPED || dir == Heading(wl[i])) && BestElevator(f, wl[i]) == id
    ensures var next := wl[..i] + wl[i + 1..];
            (taken + [wl[i]]) + Claim(f, id, next[i..], Heading(wl[i]), count + 1).0 == whole.0
            && next[..i] + Claim(f, id, next[i..], Heading(wl[i]), count + 1).1 == whole.1
  {
    ClaimAt(f, id, wl, i, dir, count);
    RemoveAt(wl, i);
    ConsAssoc(taken, wl[i], Claim(f, id, wl[i + 1..], Heading(wl[i]), count + 1).0);
  }

  /** Before the loop of `getFloorRequests` nothing is taken and nothing is kept yet. */
  lemma ClaimBegin(f: Fleet, id: Int32, wl: seq<FloorRequest>, dir: MotorState, count: int,
                   whole: (seq<FloorRequest>, seq<FloorRequest>))
    requires Valid(f) && whole == Claim(f, id, wl, dir, count)
    ensures [] + Claim(f, id, wl[0..], dir, count).0 == whole.0
    ensures wl[..0] + Claim(f, id, wl[0..], dir, count).1 == whole.1
  {
    assert wl[0..] == wl && wl[..0] == [];
  }

  /** When the loop of `getFloorRequests` stops, what it took and kept is the whole batch and the rest. */
  lemma ClaimEnd(f: Fleet, id: Int32, wl: seq<FloorRequest>, i: nat, dir: MotorState, count: int,
                 taken: seq<FloorRequest>, whole: (seq<FloorRequest>, seq<FloorRequest>))
    requires Valid(f) && i <= |wl| && (i == |wl| || count >= MAX_CAPACITY)
    requires taken + Claim(f, id, wl[i..], dir, count).0 == whole.0
    requires wl[..i] + Claim(f, id, wl[i..], dir, count).1 == whole.1
    ensures taken == whole.0 && wl == whole.1
  {
    assert Claim(f, id, wl[i..], dir, count) == ([], wl[i..]);
    assert taken + [] == taken;
    assert wl[..i] + wl[i..] == wl;
  }

  /** The same loop passing over `wl[i]`, which stays in the list. */
  lemma ClaimSkip(f: Fleet, id: Int32, wl: seq<FloorRequest>, i: nat, dir: MotorState, count: int,
                  taken: seq<FloorRequest>, whole: (seq<FloorRequest>, seq<FloorRequest>))
    requires Valid(f) && i < |wl| && count < MAX_CAPACITY
    requires taken + Claim(f, id, wl[i..], dir, count).0 == whole.0
    requires wl[..i] + Claim(f, id, wl[i..], dir, count).1 == whole.1
    requires !((dir == STOPPED || dir == Heading(wl[i])) && BestElevator(f, wl[i]) == id)
    ensures taken + Claim(f, id, wl[i + 1..], dir, count).0 == whole.0
    ensures wl[..i + 1] + Claim(f, id, wl[i + 1..], dir, count).1 == whole.1
  {
    ClaimAt(f, id, wl, i, dir, count);
    PrefixSnoc(wl, i);
    ConsAssoc(wl[..i], wl[i], Claim(f, id, wl[i + 1..], dir, count).1);
  }

  /** The fleet, waitlist and outbox after the reallocation loop has visited `ids`, starting with `sent` already sent. */
  function Sequel(g: Fleet, wl: seq<FloorRequest>, sent: seq<Outgoing>, ids: seq<Int32>): (Fleet, seq<FloorRequest>, seq<Outgoing>)
    requires Valid(g) && Enumerates(g, ids)
  {
    var r := OfferAll(g, wl, ids);
    (r.0, r.1, sent + r.2)
  }

  /** Visiting one more elevator is one more `Offer`. */
  lemma OfferAllStep(g: Fleet, wl: seq<FloorRequest>, sent: seq<Outgoing>, ids: seq<Int32>, k: nat)
    requires Valid(g) && ids == g.order && k < |ids|
    ensures var prev := Sequel(g, wl, sent, ids[..k]);
            Valid(prev.0) && ids[k] in prev.0.elevators && prev.0.elevators[ids[k]].id == ids[k]
            && var next := Offer(prev.0, prev.1, ids[k]);
               Sequel(g, wl, sent, ids[..k + 1]) == (next.0, next.1, prev.2 + next.2)
  {
    var pre := ids[..k + 1];
    assert pre[..|pre| - 1] == ids[..k] && pre[|pre| - 1] == ids[k];
    assert ids[k] in g.elevators;
    assert Enumerates(g, pre);
    var prev := OfferAll(g, wl, ids[..k]);
    var next := Offer(prev.0, prev.1, ids[k]);
    assert sent + (prev.2 + next.2) == (sent + prev.2) + next.2;
  }

  /**
   * The two loops of `updateElevatorState` at a stop: the requests in
   * service ending at `floor` are removed, then those assigned starting at
   * `floor` move into service.
   */
  method Stop(floor: Int32, l: Lists) returns (r: Lists)
    ensures r == AlightThenBoard(floor, l)
  {
    var staying, _ := RemoveMatching(l.inService, DestinationAt(floor));
    var waiting, boarding := RemoveMatching(l.pickups, SourceAt(floor));
    r := Lists(staying + boarding, waiting);
  }

  /** The scheduler object, with the maps and the waitlist its methods update in place. */
  class Scheduler {
    var elevators: map<Int32, ElevatorMessage>
    var order: seq<Int32>
    var elevatorPorts: map<Int32, Int32>
    var elevatorFloorRequestsAssigned: map<Int32, seq<FloorRequest>>
    var elevatorFloorRequestsInService: map<Int32, seq<FloorRequest>>
    var waitlist: seq<FloorRequest>
    var running: bool
    var elevatorAdded: bool
    var outbox: seq<Outgoing>

    function Fleet(): Dispatch.Fleet
      reads this
    {
      Dispatch.Fleet(elevators, order, elevatorPorts, elevatorFloorRequestsAssigned, elevatorFloorRequestsInService)
    }

    function State(): SchedulerState
      reads this
    {
      SchedulerState(Fleet(), waitlist, running, elevatorAdded)
    }

    /** A new scheduler: no elevator, an empty waitlist, running, nothing sent. */
    constructor ()
      ensures State() == SchedulerState(Empty(), [], true, false) && outbox == []
    {
      elevators := map[];
      order := [];
      elevatorPorts := map[];
      elevatorFloorRequestsAssigned := map[];
      elevatorFloorRequestsInService := map[];
      waitlist := [];
      running := true;
      elevatorAdded := false;
      outbox := [];
    }

    /** `register`: record the port and give the elevator two empty lists. */
    method Register(rm: Registers.Register)
      requires Valid(Fleet())
      modifies this
      ensures Fleet() == Dispatch.Register(old(Fleet()), rm.id, rm.portNumber)
      ensures waitlist == old(waitlist) && running == old(running) && elevatorAdded == old(elevatorAdded)
      ensures outbox == old(outbox)
    {
      var id := Registers.GetID(rm);
      elevatorPorts := elevatorPorts[id := Registers.GetPort(rm)];
      elevatorFloorRequestsInService := elevatorFloorRequestsInService[id := []];
      elevatorFloorRequestsAssigned := elevatorFloorRequestsAssigned[id := []];
    }

    /** `updateElevatorState`: store the snapshot; at a stop, let passengers off and then on. */
    method UpdateElevatorState(e: ElevatorMessage)
      requires HasStopped(e) ==> Registered(Fleet(), e.id)
      modifies this
      ensures Fleet() == UpdateState(old(Fleet()), e)
      ensures waitlist == old(waitlist) && running == old(running) && elevatorAdded == old(elevatorAdded)
      ensures outbox == old(outbox)
    {
      ghost var target := UpdateState(Fleet(), e);
      var id := e.id;
      var ids := if id in elevators then order else order + [id];
      elevators, order := elevators[id := e], ids;
      if HasStopped(e) {
        var lists := Stop(e.floor, Lists(elevatorFloorRequestsInService[id], elevatorFloorRequestsAssigned[id]));
        elevatorFloorRequestsInService, elevatorFloorRequestsAssigned :=
          elevatorFloorRequestsInService[id := lists.inService], elevatorFloorRequestsAssigned[id := lists.pickups];
      }
      assert Fleet() == target;
    }

    /** `getFloorRequests`: take from the waitlist, in order, the batch elevator `em` should serve next. */
    method GetFloorRequests(em: ElevatorMessage) returns (floorRequests: seq<FloorRequest>)
      requires Valid(Fleet()) && Registered(Fleet(), em.id)
      modifies this
      ensures Fleet() == old(Fleet())
      ensures (floorRequests, waitlist) == Claim(Fleet(), em.id, old(waitlist), STOPPED, Held(Fleet(), em.id))
      ensures running == old(running) && elevatorAdded == old(elevatorAdded) && outbox == old(outbox)
    {
      var f := Fleet();
      var id := em.id;
      var remaining := waitlist;
      floorRequests := [];
      var futureDirection := STOPPED;
      var passengerCount := |elevatorFloorRequestsAssigned[id]| + |elevatorFloorRequestsInService[id]|;
      var i := 0;
      ghost var whole := Claim(f, id, waitlist, STOPPED, Held(f, id));
      ClaimBegin(f, id, remaining, STOPPED, passengerCount, whole);
      while i < |remaining| && passengerCount < MAX_CAPACITY
        invariant 0 <= i <= |remaining|
        modifies {}
        invariant floorRequests + Claim(f, id, remaining[i..], futureDirection, passengerCount).0 == whole.0
        invariant remaining[..i] + Claim(f, id, remaining[i..], futureDirection, passengerCount).1 == whole.1
        decreases |remaining| - i
      {
        var fr := remaining[i];
        var passengerDirection := if IsGoingUp(fr) then UP else DOWN;
        if (futureDirection == STOPPED || futureDirection == passengerDirection) && BestElevator(f, fr) == id {
          ClaimTake(f, id, remaining, i, futureDirection, passengerCount, floorRequests, whole);
          futureDirection := passengerDirection;
          floorRequests := floorRequests + [fr];
          passengerCount := passengerCount + 1;
          remaining := remaining[..i] + remaining[i + 1..];
        } else {
          ClaimSkip(f, id, remaining, i, futureDirection, passengerCount, floorRequests, whole);
          i := i + 1;
        }
      }
      ClaimEnd(f, id, remaining, i, futureDirection, passengerCount, floorRequests, whole);
      waitlist := remaining;
    }

    /** `sendRequestsToElevator`: file each request with elevator `id`, then send it the whole list. */
    method SendRequestsToElevator(floorRequests: seq<FloorRequest>, id: Int32)
      requires Valid(Fleet()) && id in elevators
      modifies this
      ensures Fleet() == Send(old(Fleet()), floorRequests, id)
      ensures outbox == old(outbox) + [RequestsTo(old(Fleet()), floorRequests, id)]
      ensures waitlist == old(waitlist) && running == old(running) && elevatorAdded == old(elevatorAdded)
    {
      var floor := elevators[id].floor;
      var inService := elevatorFloorRequestsInService[id];
      var pickups := elevatorFloorRequestsAssigned[id];
      var k := 0;
      while k < |floorRequests|
        invariant 0 <= k <= |floorRequests|
        modifies {}
        invariant Lists(inService, pickups) == FiledAll(floorRequests[..k], floor, ListsOf(Fleet(), id))
      {
        var fr := floorRequests[k];
        assert floorRequests[..k + 1][..k] == floorRequests[..k];
        if floor == fr.sourceFloor {
          inService := inService + [fr];
        } else {
          pickups := pickups + [fr];
        }
        k := k + 1;
      }
      assert floorRequests[..k] == floorRequests;
      elevatorFloorRequestsInService := elevatorFloorRequestsInService[id := inService];
      elevatorFloorRequestsAssigned := elevatorFloorRequestsAssigned[id := pickups];
      outbox := outbox + [Outgoing(Messages.RequestList(RequestListMessages.RequestListMessage(floorRequests)), elevatorPorts[id])];
    }

    /** `isFinished`: scan every in-service list, then every assigned list, then the waitlist. */
    method IsFinished() returns (finished: bool)
      ensures finished == Finished(Fleet(), waitlist)
    {
      var ids := elevatorFloorRequestsInService.Keys;
      while ids != {}
        invariant ids <= elevatorFloorRequestsInService.Keys
        invariant forall k :: k in elevatorFloorRequestsInService && k !in ids ==> elevatorFloorRequestsInService[k] == []
        decreases ids
      {
        var id :| id in ids;
        if |elevatorFloorRequestsInService[id]| > 0 {
          return false;
        }
        ids := ids - {id};
      }
      ids := elevatorFloorRequestsAssigned.Keys;
      while ids != {}
        invariant ids <= elevatorFloorRequestsAssigned.Keys
        invariant forall k :: k in elevatorFloorRequestsAssigned && k !in ids ==> elevatorFloorRequestsAssigned[k] == []
        decreases ids
      {
        var id :| id in ids;
        if |elevatorFloorRequestsAssigned[id]| > 0 {
          return false;
        }
        ids := ids - {id};
      }
      return waitlist == [];
    }

    /** `handleBrokenElevator`: requeue the broken elevator's waiting passengers, retire it, and offer the waitlist to idle elevators. */
    method HandleBrokenElevator(e: ElevatorMessage)
      requires Valid(Fleet()) && Registered(Fleet(), e.id)
      modifies this
      ensures Fleet() == HandleBroken(old(Fleet()), old(waitlist), e.id).0
      ensures waitlist == HandleBroken(old(Fleet()), old(waitlist), e.id).1
      ensures outbox == old(outbox) + HandleBroken(old(Fleet()), old(waitlist), e.id).2
      ensures running == old(running) && elevatorAdded == old(elevatorAdded)
    {
      var id := e.id;
      waitlist := waitlist + elevatorFloorRequestsAssigned[id];
      elevators := elevators - {id};
      order := Erase(order, id);
      elevatorFloorRequestsAssigned := elevatorFloorRequestsAssigned - {id};
      elevatorFloorRequestsInService := elevatorFloorRequestsInService - {id};
      assert Fleet() == Retire(old(Fleet()), id);
      Reallocate();
    }

    /** The reallocation loop of `handleBrokenElevator`, over the elevators in enumeration order. */
    method Reallocate()
      requires Valid(Fleet())
      modifies this
      ensures Fleet() == OfferAll(old(Fleet()), old(waitlist), old(order)).0
      ensures waitlist == OfferAll(old(Fleet()), old(waitlist), old(order)).1
      ensures outbox == old(outbox) + OfferAll(old(Fleet()), old(waitlist), old(order)).2
      ensures running == old(running) && elevatorAdded == old(elevatorAdded)
    {
      ghost var g := Fleet();
      ghost var wl := waitlist;
      ghost var sent := outbox;
      var ids := order;
      var k := 0;
      assert ids[..k] == [] && sent + [] == sent;
      while k < |ids|
        invariant 0 <= k <= |ids| && ids == g.order
        invariant (Fleet(), waitlist, outbox) == Sequel(g, wl, sent, ids[..k])
        invariant running == old(running) && elevatorAdded == old(elevatorAdded)
      {
        OfferAllStep(g, wl, sent, ids, k);
        OfferBatch(elevators[ids[k]]);
        k := k + 1;
      }
      assert ids[..k] == ids;
    }

    /** One turn of the reallocation loop: a waiting elevator is offered a batch from the waitlist. */
    method OfferBatch(em: ElevatorMessage)
      requires Valid(Fleet()) && em.id in elevators && elevators[em.id] == em
      modifies this
      ensures (Fleet(), waitlist) == (Offer(old(Fleet()), old(waitlist), em.id).0, Offer(old(Fleet()), old(waitlist), em.id).1)
      ensures outbox == old(outbox) + Offer(old(Fleet()), old(waitlist), em.id).2
      ensures running == old(running) && elevatorAdded == old(elevatorAdded)
    {
      if Dispatch.Waiting(Fleet(), em.id) {
        var floorRequests := GetFloorRequests(em);
        if floorRequests != [] {
          SendRequestsToElevator(floorRequests, em.id);
        }
      }
    }

    /** The body of the inner loop of `run`, for one received message. */
    method HandleMessage(m: Messages.Message)
      requires Acceptable(State(), m)
      modifies this
      ensures State() == Turn(old(State()), m).0
      ensures outbox == old(outbox) + Turn(old(State()), m).1
    {
      match m
      case Request(fr) =>
        HandleFloorRequest(fr);
      case ElevatorState(em) =>
        HandleElevatorState(em);
      case Registration(rm) =>
        Register(rm);
        outbox := outbox + [Outgoing(Messages.Response, rm.portNumber)];
        elevatorAdded := true;
      case Terminate =>
        running := false;
        outbox := outbox + [Outgoing(Messages.Response, Helper.FLOOR_PORT)];
      case _ =>
    }

    /** A floor request: sent at once to its best elevator when that one is waiting, else queued; the floor is answered. */
    method HandleFloorRequest(fr: FloorRequest)
      requires Valid(Fleet())
      modifies this
      ensures State() == Arrival(old(State()), fr).0
      ensures outbox == old(outbox) + Arrival(old(State()), fr).1
    {
      BestElevatorSpec(Fleet(), fr);
      var elevatorId := BestElevator(Fleet(), fr);
      if elevatorId != -1 && Dispatch.Waiting(Fleet(), elevatorId) {
        SendRequestsToElevator([fr], elevatorId);
      } else {
        waitlist := waitlist + [fr];
      }
      outbox := outbox + [Outgoing(Messages.Response, Helper.FLOOR_PORT)];
    }

    /** A snapshot: a broken elevator is retired and told to terminate; any other is recorded and sent its next batch. */
    method HandleElevatorState(em: ElevatorMessage)
      requires Valid(Fleet()) && Registered(Fleet(), em.id)
      modifies this
      ensures State() == Turn(old(State()), Messages.ElevatorState(em)).0
      ensures outbox == old(outbox) + Turn(old(State()), Messages.ElevatorState(em)).1
    {
      if em.status == BROKEN {
        RetireElevator(em);
      } else {
        ServeElevator(em);
      }
    }

    /** A broken elevator: retired, told to terminate, and its port forgotten. */
    method RetireElevator(em: ElevatorMessage)
      requires Valid(Fleet()) && Registered(Fleet(), em.id) && em.status == BROKEN
      modifies this
      ensures State() == Breakdown(old(State()), em).0
      ensures outbox == old(outbox) + Breakdown(old(State()), em).1
    {
      var id := em.id;
      var port := elevatorPorts[id];
      ghost var s0 := State();
      ghost var broken := HandleBroken(s0.fleet, s0.waitlist, id);
      ghost var r := Breakdown(s0, em);
      assert r.0.fleet == broken.0.(ports := broken.0.ports - {id}) && r.0.waitlist == broken.1;
      assert r.1 == broken.2 + [Outgoing(Messages.Terminate, port)];
      assert (outbox + broken.2) + [Outgoing(Messages.Terminate, port)] == outbox + r.1;
      HandleBrokenElevator(em);
      outbox, elevatorPorts := outbox + [Outgoing(Messages.Terminate, port)], elevatorPorts - {id};
    }

    /** A working elevator's snapshot: recorded, then answered. */
    method ServeElevator(em: ElevatorMessage)
      requires Valid(Fleet()) && Registered(Fleet(), em.id) && em.status != BROKEN
      modifies this
      ensures State() == Snapshot(old(State()), em).0
      ensures outbox == old(outbox) + Snapshot(old(State()), em).1
    {
      UpdateStateValid(Fleet(), em);
      UpdateElevatorState(em);
      RespondTo(em);
    }

    /** The reply to elevator `em.id` once its snapshot is recorded. */
    method RespondTo(em: ElevatorMessage)
      requires Valid(Fleet()) && Registered(Fleet(), em.id) && em.id in elevators
      modifies this
      ensures State() == Respond(old(State()), em.id).0
      ensures outbox == old(outbox) + Respond(old(State()), em.id).1
    {
      var id := em.id;
      ghost var s0 := State();
      ghost var batch := Claim(s0.fleet, id, waitlist, STOPPED, Held(s0.fleet, id));
      ghost var r := Respond(s0, id);
      var floorRequests := GetFloorRequests(em);
      assert (floorRequests, waitlist) == batch;
      if floorRequests != [] || !Dispatch.Waiting(Fleet(), id) {
        assert r.0 == s0.(fleet := Send(s0.fleet, batch.0, id), waitlist := batch.1);
        assert r.1 == [RequestsTo(s0.fleet, batch.0, id)];
        SendRequestsToElevator(floorRequests, id);
      } else {
        assert r == (s0.(waitlist := batch.1), []);
        assert outbox + r.1 == outbox;
      }
    }

    /** `checkIfElevatorsHaveAllTerminated`. */
    function CheckIfElevatorsHaveAllTerminated(): (r: bool)
      reads this
      ensures r <==> AllTerminated(State())
    {
      if elevatorAdded then elevatorPorts == map[] else false
    }
  }

  /** The state-update test on a fresh scheduler: the snapshot of an unregistered, moving elevator is stored. */
  method UpdateElevatorStateTest() returns (stored: ElevatorMessage)
    ensures stored == ElevatorMessage(0, 1, UP, DoorStates.OPEN, ARRIVED)
  {
    var scheduler := new Scheduler();
    var em := ElevatorMessage(0, 1, UP, DoorStates.OPEN, ARRIVED);
    scheduler.UpdateElevatorState(em);
    stored := scheduler.elevators[0];
  }
}
