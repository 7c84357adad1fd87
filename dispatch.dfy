/**
 * The scheduler's bookkeeping and its dispatch rules, as functions of that
 * bookkeeping: which elevators may take a request, which of them is the
 * nearest, which waiting requests an elevator collects, and how requests
 * are filed with, carried by and taken back from the elevators.
 */
module Dispatch {
  import opened Wire
  import opened MotorStates
  import opened Statuses
  import opened FloorRequests
  import opened ElevatorMessages
  import opened RequestLists
  import DoorStates
  import Messages
  import RequestListMessages

  /** `maxCapacity`: the passenger limit of an elevator. */
  const MAX_CAPACITY: int := 5

  /**
   * What the scheduler knows about the fleet: the last snapshot of every
   * running elevator, the order in which that map is enumerated, the
   * registered ports, and each registered elevator's requests still to be
   * picked up (`assigned`) and in service.
   */
  datatype Fleet = Fleet(
    elevators: map<Int32, ElevatorMessage>,
    order: seq<Int32>,
    ports: map<Int32, Int32>,
    pickups: map<Int32, seq<FloorRequest>>,
    inService: map<Int32, seq<FloorRequest>>)

  /** Both request lists exist for `id`: `register` has run for it. */
  predicate Registered(f: Fleet, id: Int32)
  {
    id in f.pickups && id in f.inService
  }

  predicate Distinct(s: seq<Int32>)
  {
    forall a, b :: 0 <= a < b < |s| ==> s[a] != s[b]
  }

  /**
   * The shape every operation keeps: the list maps share their keys, every
   * registered elevator has a port, every snapshot belongs to a registered
   * elevator and is filed under its own id, and `order` enumerates the
   * snapshots once each.
   */
  predicate Valid(f: Fleet)
  {
    f.pickups.Keys == f.inService.Keys
    && f.pickups.Keys <= f.ports.Keys
    && f.elevators.Keys <= f.pickups.Keys
    && (forall k :: k in f.elevators ==> f.elevators[k].id == k)
    && (forall n :: 0 <= n < |f.order| ==> f.order[n] in f.elevators)
    && (forall k :: k in f.elevators ==> k in f.order)
    && Distinct(f.order)
  }

  /** No elevator yet: nothing registered, no snapshot. */
  function Empty(): (f: Fleet)
    ensures Valid(f)
  {
    Fleet(map[], [], map[], map[], map[])
  }

  /** The two lists of a registered elevator. */
  function ListsOf(f: Fleet, id: Int32): Lists
    requires Registered(f, id)
  {
    Lists(f.inService[id], f.pickups[id])
  }

  /** The passengers an elevator holds or has been promised. */
  function Held(f: Fleet, id: Int32): nat
    requires Registered(f, id)
  {
    |f.pickups[id]| + |f.inService[id]|
  }

  /** `isElevatorWaiting`: both lists are empty. */
  predicate Waiting(f: Fleet, id: Int32)
    requires Registered(f, id)
  {
    f.pickups[id] == [] && f.inService[id] == []
  }

  /**
   * `isElevatorCandidate`: an elevator with room may take an up request from
   * a floor at or above it when its first request leads up, a down request
   * from a floor at or below it when its first request leads down, and any
   * request when it is stopped with nothing to do.  Room means holding at
   * most `MAX_CAPACITY`, since the test is `>`.
   */
  function Candidate(f: Fleet, fr: FloorRequest, e: ElevatorMessage): (r: bool)
    requires Registered(f, e.id)
    ensures r ==> Held(f, e.id) <= MAX_CAPACITY
    ensures Held(f, e.id) <= MAX_CAPACITY && HasStopped(e) && Waiting(f, e.id) ==> r
    ensures IsGoingUp(fr) && r && !(HasStopped(e) && Waiting(f, e.id)) ==>
              e.floor <= fr.sourceFloor && LeadsUp(f.inService[e.id], f.pickups[e.id])
    ensures !IsGoingUp(fr) && r && !(HasStopped(e) && Waiting(f, e.id)) ==>
              e.floor >= fr.sourceFloor && LeadsDown(f.inService[e.id], f.pickups[e.id])
    ensures (Held(f, e.id) <= MAX_CAPACITY && IsGoingUp(fr)
             && e.floor <= fr.sourceFloor && LeadsUp(f.inService[e.id], f.pickups[e.id])) ==> r
    ensures (Held(f, e.id) <= MAX_CAPACITY && !IsGoingUp(fr)
             && e.floor >= fr.sourceFloor && LeadsDown(f.inService[e.id], f.pickups[e.id])) ==> r
  {
    var id := e.id;
    if Held(f, id) > MAX_CAPACITY then false
    else if IsGoingUp(fr) then
      if e.floor <= fr.sourceFloor && LeadsUp(f.inService[id], f.pickups[id]) then true
      else HasStopped(e) && Waiting(f, id)
    else
      if e.floor >= fr.sourceFloor && LeadsDown(f.inService[id], f.pickups[id]) then true
      else HasStopped(e) && Waiting(f, id)
  }

  /** A waiting elevator has no first request, so only the stopped-and-waiting rule can make it a candidate. */
  lemma WaitingCandidate(f: Fleet, fr: FloorRequest, e: ElevatorMessage)
    requires Registered(f, e.id) && Waiting(f, e.id)
    ensures Candidate(f, fr, e) <==> HasStopped(e)
  {
  }

  /** An elevator holding exactly `MAX_CAPACITY` passengers still passes the capacity test; one more and it never does. */
  lemma CapacityBoundary(f: Fleet, fr: FloorRequest, e: ElevatorMessage)
    requires Registered(f, e.id) && f.inService[e.id] == [] && |f.pickups[e.id]| == MAX_CAPACITY
    requires IsGoingUp(f.pickups[e.id][0]) && IsGoingUp(fr) && e.floor <= fr.sourceFloor
    ensures Candidate(f, fr, e)
    ensures !Candidate(f.(pickups := f.pickups[e.id := f.pickups[e.id] + [fr]]), fr, e)
  {
  }

  /** The candidate test of the scheduler tests: at floor 4, holding a request 7 to 8, a request 1 to 3 is refused and 5 to 6 accepted. */
  lemma CandidateTest()
    ensures var e := ElevatorMessage(1, 4, UP, DoorStates.CLOSED, ARRIVED);
            var f := Fleet(map[1 := e], [1], map[1 := 0], map[1 := [FloorRequest(0, 7, 8)]], map[1 := []]);
            !Candidate(f, FloorRequest(0, 1, 3), e) && Candidate(f, FloorRequest(0, 5, 6), e)
  {
  }

  /** `Math.abs` on a Java `int`: the magnitude, except that the most negative value is its own absolute value. */
  function JavaAbs(x: Int32): (r: Int32)
    ensures x != -0x8000_0000 ==> r >= 0 && (r == x || r == -x)
    ensures x == -0x8000_0000 ==> r == x
  {
    var v: int := x;
    if v < 0 then Wrap32(-v) else x
  }

  /** The comparator's key: `Math.abs(e.getFloor() - source)` in `int` arithmetic. */
  function Gap(e: ElevatorMessage, source: Int32): Int32
  {
    JavaAbs(Wrap32(e.floor - source))
  }

  /** The comparator of `getBestElevator`: the difference of the two keys, in `int` arithmetic. */
  function Compare(e1: ElevatorMessage, e2: ElevatorMessage, source: Int32): Int32
  {
    Wrap32(Gap(e1, source) - Gap(e2, source))
  }

  /** The exact distance between an elevator and a floor. */
  function Distance(e: ElevatorMessage, source: int): nat
  {
    if e.floor >= source then e.floor - source else source - e.floor
  }

  /** Floors small enough that no arithmetic of the comparator wraps. */
  predicate Near(x: int)
  {
    -0x4000_0000 <= x < 0x4000_0000
  }

  /** Away from the extremes of `int`, the comparator orders elevators by their true distance. */
  lemma CompareExact(e1: ElevatorMessage, e2: ElevatorMessage, source: Int32)
    requires Near(e1.floor) && Near(e2.floor) && Near(source)
    ensures Compare(e1, e2, source) <= 0 <==> Distance(e1, source) <= Distance(e2, source)
  {
    assert Gap(e1, source) == Distance(e1, source);
    assert Gap(e2, source) == Distance(e2, source);
  }

  /** Near the extremes the comparator wraps: an elevator at the lowest `int` floor looks nearer than one at the request's floor. */
  lemma CompareWraps()
    ensures var far := ElevatorMessage(1, -0x8000_0000, STOPPED, DoorStates.CLOSED, ARRIVED);
            var here := ElevatorMessage(2, 0, STOPPED, DoorStates.CLOSED, ARRIVED);
            Compare(far, here, 0) < 0 && Distance(far, 0) > Distance(here, 0)
  {
  }

  /** `reduce` with `minBy`: the running minimum is replaced only by an element that compares strictly smaller. */
  function MinFrom(acc: ElevatorMessage, rest: seq<ElevatorMessage>, source: Int32): (r: ElevatorMessage)
    ensures r == acc || r in rest
    decreases |rest|
  {
    if rest == [] then acc
    else MinFrom(if Compare(acc, rest[0], source) <= 0 then acc else rest[0], rest[1..], source)
  }

  /** `Stream.min`: nothing for no elements; otherwise the reduction from the first. */
  function Closest(cands: seq<ElevatorMessage>, source: Int32): (r: Option<ElevatorMessage>)
    ensures r.None? <==> cands == []
    ensures r.Some? ==> r.value in cands
  {
    if cands == [] then None else Some(MinFrom(cands[0], cands[1..], source))
  }

  /** Every elevator of the sequence is on a floor far from the extremes. */
  predicate AllNear(s: seq<ElevatorMessage>)
  {
    forall n :: 0 <= n < |s| ==> Near(s[n].floor)
  }

  /** The tail of a sequence of near elevators is near. */
  lemma AllNearTail(s: seq<ElevatorMessage>)
    requires s != [] && AllNear(s)
    ensures AllNear(s[1..])
  {
    forall n | 0 <= n < |s[1..]| ensures Near(s[1..][n].floor) {
      assert s[1..][n] == s[n + 1];
    }
  }

  /** The running minimum ends at least as near as the start and as every later element. */
  lemma {:induction false} MinFromNearest(acc: ElevatorMessage, rest: seq<ElevatorMessage>, source: Int32)
    requires Near(acc.floor) && AllNear(rest) && Near(source)
    ensures var r := MinFrom(acc, rest, source);
            Distance(r, source) <= Distance(acc, source)
            && (forall n :: 0 <= n < |rest| ==> Distance(r, source) <= Distance(rest[n], source))
    decreases |rest|
  {
    if rest != [] {
      var x := rest[0];
      CompareExact(acc, x, source);
      var next := if Compare(acc, x, source) <= 0 then acc else x;
      AllNearTail(rest);
      MinFromNearest(next, rest[1..], source);
      var r := MinFrom(acc, rest, source);
      assert r == MinFrom(next, rest[1..], source);
      forall n | 0 <= n < |rest| ensures Distance(r, source) <= Distance(rest[n], source) {
        if n > 0 {
          assert rest[n] == rest[1..][n - 1];
        }
      }
    }
  }

  /** `e` occurs in `s`, and every element before its first occurrence is strictly farther from `source`. */
  predicate FirstAt(s: seq<ElevatorMessage>, e: ElevatorMessage, source: Int32)
  {
    exists k :: 0 <= k < |s| && s[k] == e && forall n :: 0 <= n < k ==> Distance(s[n], source) > Distance(e, source)
  }

  /** An element first-nearest in the tail stays so in the whole sequence when the head is farther. */
  lemma FirstAtCons(s: seq<ElevatorMessage>, e: ElevatorMessage, source: Int32)
    requires s != [] && Distance(s[0], source) > Distance(e, source) && FirstAt(s[1..], e, source)
    ensures FirstAt(s, e, source)
  {
    var k :| 0 <= k < |s[1..]| && s[1..][k] == e && forall n :: 0 <= n < k ==> Distance(s[1..][n], source) > Distance(e, source);
    assert s[k + 1] == e;
    forall n | 0 <= n < k + 1 ensures Distance(s[n], source) > Distance(e, source) {
      if n > 0 {
        assert s[n] == s[1..][n - 1];
      }
    }
  }

  /**
   * If the running minimum moved, it moved to an element strictly nearer
   * than the start and than everything before that element.
   */
  lemma {:induction false} MinFromFirst(acc: ElevatorMessage, rest: seq<ElevatorMessage>, source: Int32)
    requires Near(acc.floor) && AllNear(rest) && Near(source)
    ensures var r := MinFrom(acc, rest, source);
            r == acc
            || (Distance(r, source) < Distance(acc, source) && FirstAt(rest, r, source))
    decreases |rest|
  {
    if rest != [] {
      var x := rest[0];
      CompareExact(acc, x, source);
      var next := if Compare(acc, x, source) <= 0 then acc else x;
      AllNearTail(rest);
      MinFromFirst(next, rest[1..], source);
      var r := MinFrom(acc, rest, source);
      assert r == MinFrom(next, rest[1..], source);
      if r != acc {
        if r == next {
          assert rest[0] == r && Distance(r, source) < Distance(acc, source);
          assert FirstAt(rest, r, source) by {
            assert 0 < |rest| && rest[0] == r;
          }
        } else {
          FirstAtCons(rest, r, source);
        }
      }
    }
  }

  /** Away from the extremes of `int`, `Stream.min` picks an element whose distance is the least. */
  lemma {:induction false} ClosestIsNearest(cands: seq<ElevatorMessage>, source: Int32)
    requires cands != [] && AllNear(cands) && Near(source)
    ensures forall n :: 0 <= n < |cands| ==> Distance(Closest(cands, source).value, source) <= Distance(cands[n], source)
  {
    var rest := cands[1..];
    AllNearTail(cands);
    MinFromNearest(cands[0], rest, source);
    var r := Closest(cands, source).value;
    forall n | 0 <= n < |cands| ensures Distance(r, source) <= Distance(cands[n], source) {
      if n > 0 {
        assert cands[n] == rest[n - 1];
      }
    }
  }

  /** Among the nearest, `Stream.min` picks the first: every element before its pick is strictly farther. */
  lemma {:induction false} ClosestIsFirst(cands: seq<ElevatorMessage>, source: Int32)
    requires cands != [] && AllNear(cands) && Near(source)
    ensures FirstAt(cands, Closest(cands, source).value, source)
  {
    AllNearTail(cands);
    MinFromFirst(cands[0], cands[1..], source);
    var r := Closest(cands, source).value;
    if r == cands[0] {
      assert 0 < |cands| && cands[0] == r;
    } else {
      FirstAtCons(cands, r, source);
    }
  }

  /** Every id of the sequence has a snapshot. */
  predicate Enumerates(f: Fleet, ids: seq<Int32>)
  {
    forall n :: 0 <= n < |ids| ==> ids[n] in f.elevators
  }

  /** The `filter` step: the snapshots of `ids`, in that order, of the elevators that are candidates for `fr`. */
  function Candidates(f: Fleet, fr: FloorRequest, ids: seq<Int32>): seq<ElevatorMessage>
    requires Valid(f) && Enumerates(f, ids)
    decreases |ids|
  {
    if ids == [] then []
    else
      var e := f.elevators[ids[0]];
      (if Candidate(f, fr, e) then [e] else []) + Candidates(f, fr, ids[1..])
  }

  /** The filter keeps exactly the snapshots of the listed elevators that are candidates. */
  lemma {:induction false} CandidatesMembers(f: Fleet, fr: FloorRequest, ids: seq<Int32>)
    requires Valid(f) && Enumerates(f, ids)
    ensures forall e :: e in Candidates(f, fr, ids) <==>
              e.id in ids && e.id in f.elevators && f.elevators[e.id] == e && Candidate(f, fr, e)
    decreases |ids|
  {
    if ids != [] {
      assert Enumerates(f, ids[1..]) by {
        forall n | 0 <= n < |ids[1..]| ensures ids[1..][n] in f.elevators {
          assert ids[1..][n] == ids[n + 1];
        }
      }
      CandidatesMembers(f, fr, ids[1..]);
      assert forall x :: x in ids <==> x == ids[0] || x in ids[1..];
    }
  }

  /** `getBestElevator`: the id of the nearest candidate in enumeration order, or -1 when there is none. */
  function BestElevator(f: Fleet, fr: FloorRequest): Int32
    requires Valid(f)
  {
    match Closest(Candidates(f, fr, f.order), fr.sourceFloor)
    case None => -1
    case Some(e) => e.id
  }

  /** The chosen id, unless -1, is a candidate's; when no elevator is a candidate the answer is -1. */
  lemma BestElevatorSpec(f: Fleet, fr: FloorRequest)
    requires Valid(f)
    ensures var r := BestElevator(f, fr);
            r != -1 ==> r in f.elevators && Candidate(f, fr, f.elevators[r])
    ensures (forall k :: k in f.elevators ==> !Candidate(f, fr, f.elevators[k])) ==> BestElevator(f, fr) == -1
  {
    CandidatesMembers(f, fr, f.order);
    var cands := Candidates(f, fr, f.order);
    if cands != [] {
      var e := cands[0];
      assert e in cands;
    }
  }

  /** When no elevator has id -1, the answer -1 means exactly that there is no candidate. */
  lemma NoCandidateIffMinusOne(f: Fleet, fr: FloorRequest)
    requires Valid(f) && -1 !in f.elevators
    ensures BestElevator(f, fr) == -1 <==> forall k :: k in f.elevators ==> !Candidate(f, fr, f.elevators[k])
  {
    BestElevatorSpec(f, fr);
    CandidatesMembers(f, fr, f.order);
    if k :| k in f.elevators && Candidate(f, fr, f.elevators[k]) {
      assert f.elevators[k] in Candidates(f, fr, f.order);
    }
  }

  /** Away from the extremes of `int`, the chosen elevator is at least as near the request as every other candidate. */
  lemma {:induction false} BestIsNearest(f: Fleet, fr: FloorRequest)
    requires Valid(f) && Near(fr.sourceFloor)
    requires forall k :: k in f.elevators ==> Near(f.elevators[k].floor)
    requires BestElevator(f, fr) != -1
    ensures BestElevator(f, fr) in f.elevators
            && var best := f.elevators[BestElevator(f, fr)];
               forall k :: k in f.elevators && Candidate(f, fr, f.elevators[k]) ==>
                 Distance(best, fr.sourceFloor) <= Distance(f.elevators[k], fr.sourceFloor)
  {
    BestElevatorSpec(f, fr);
    CandidatesMembers(f, fr, f.order);
    var cands := Candidates(f, fr, f.order);
    assert AllNear(cands) by {
      forall n | 0 <= n < |cands| ensures Near(cands[n].floor) {
        assert cands[n] in cands;
      }
    }
    ClosestIsNearest(cands, fr.sourceFloor);
    var best := f.elevators[BestElevator(f, fr)];
    assert best == Closest(cands, fr.sourceFloor).value;
    forall k | k in f.elevators && Candidate(f, fr, f.elevators[k])
      ensures Distance(best, fr.sourceFloor) <= Distance(f.elevators[k], fr.sourceFloor)
    {
      var e := f.elevators[k];
      assert e in cands;
      var n :| 0 <= n < |cands| && cands[n] == e;
    }
  }

  /** The request's direction as a motor state. */
  function Heading(fr: FloorRequest): MotorState
  {
    if IsGoingUp(fr) then UP else DOWN
  }

  /**
   * `getFloorRequests` on the rest `wl` of the waitlist: with `count`
   * passengers held and the batch heading `dir` so far (STOPPED for none
   * yet), collect each request whose best elevator is `id` and which goes the
   * batch's way, until the elevator is full.  Gives the collected requests and
   * what stays on the waitlist.
   */
  function Claim(f: Fleet, id: Int32, wl: seq<FloorRequest>, dir: MotorState, count: int): (r: (seq<FloorRequest>, seq<FloorRequest>))
    requires Valid(f)
    decreases |wl|
  {
    if wl == [] || count >= MAX_CAPACITY then ([], wl)
    else
      var fr := wl[0];
      if (dir == STOPPED || dir == Heading(fr)) && BestElevator(f, fr) == id then
        var rest := Claim(f, id, wl[1..], Heading(fr), count + 1);
        ([fr] + rest.0, rest.1)
      else
        var rest := Claim(f, id, wl[1..], dir, count);
        (rest.0, [fr] + rest.1)
  }

  /** Every collected request names `id` as its best elevator and heads the batch's way. */
  lemma {:induction false} ClaimedAreBest(f: Fleet, id: Int32, wl: seq<FloorRequest>, dir: MotorState, count: int)
    requires Valid(f)
    ensures forall fr :: fr in Claim(f, id, wl, dir, count).0 ==> BestElevator(f, fr) == id
    decreases |wl|
  {
    if wl != [] && count < MAX_CAPACITY {
      var fr := wl[0];
      if (dir == STOPPED || dir == Heading(fr)) && BestElevator(f, fr) == id {
        ClaimedAreBest(f, id, wl[1..], Heading(fr), count + 1);
      } else {
        ClaimedAreBest(f, id, wl[1..], dir, count);
      }
    }
  }

  /** A batch heads the way it was started: `dir` when given, else the way of its first request. */
  lemma {:induction false} ClaimedHeading(f: Fleet, id: Int32, wl: seq<FloorRequest>, dir: MotorState, count: int)
    requires Valid(f)
    ensures var batch := Claim(f, id, wl, dir, count).0;
            dir != STOPPED ==> forall fr :: fr in batch ==> Heading(fr) == dir
    ensures var batch := Claim(f, id, wl, dir, count).0;
            batch != [] ==> forall fr :: fr in batch ==> Heading(fr) == Heading(batch[0])
    decreases |wl|
  {
    if wl != [] && count < MAX_CAPACITY {
      var fr := wl[0];
      if (dir == STOPPED || dir == Heading(fr)) && BestElevator(f, fr) == id {
        ClaimedHeading(f, id, wl[1..], Heading(fr), count + 1);
      } else {
        ClaimedHeading(f, id, wl[1..], dir, count);
      }
    }
  }

  /** Every two requests of a batch head the same way. */
  lemma ClaimSharesHeading(f: Fleet, id: Int32, wl: seq<FloorRequest>, dir: MotorState, count: int)
    requires Valid(f)
    ensures var batch := Claim(f, id, wl, dir, count).0;
            forall a, b :: a in batch && b in batch ==> Heading(a) == Heading(b)
  {
    ClaimedHeading(f, id, wl, dir, count);
  }

  /** The batch never takes the elevator past `MAX_CAPACITY`, and one already full collects nothing. */
  lemma {:induction false} ClaimWithinCapacity(f: Fleet, id: Int32, wl: seq<FloorRequest>, dir: MotorState, count: int)
    requires Valid(f)
    ensures count < MAX_CAPACITY ==> count + |Claim(f, id, wl, dir, count).0| <= MAX_CAPACITY
    ensures count >= MAX_CAPACITY ==> Claim(f, id, wl, dir, count) == ([], wl)
    decreases |wl|
  {
    if wl != [] && count < MAX_CAPACITY {
      var fr := wl[0];
      if (dir == STOPPED || dir == Heading(fr)) && BestElevator(f, fr) == id {
        ClaimWithinCapacity(f, id, wl[1..], Heading(fr), count + 1);
      } else {
        ClaimWithinCapacity(f, id, wl[1..], dir, count);
      }
    }
  }

  /** Collecting neither loses nor duplicates requests. */
  lemma ClaimPartitions(f: Fleet, id: Int32, wl: seq<FloorRequest>, dir: MotorState, count: int)
    requires Valid(f)
    ensures var r := Claim(f, id, wl, dir, count); multiset(r.0) + multiset(r.1) == multiset(wl)
  {
    ClaimInterleaves(f, id, wl, dir, count);
    var r := Claim(f, id, wl, dir, count);
    InterleavesPartition(r.0, r.1, wl);
  }

  /** The batch and what stays behind are a merge of the waitlist. */
  lemma {:induction false} ClaimInterleaves(f: Fleet, id: Int32, wl: seq<FloorRequest>, dir: MotorState, count: int)
    requires Valid(f)
    ensures var r := Claim(f, id, wl, dir, count); Interleaves(r.0, r.1, wl)
    decreases |wl|
  {
    if wl == [] || count >= MAX_CAPACITY {
      InterleavesSelf(wl);
    } else {
      var fr := wl[0];
      if (dir == STOPPED || dir == Heading(fr)) && BestElevator(f, fr) == id {
        ClaimInterleaves(f, id, wl[1..], Heading(fr), count + 1);
        var rest := Claim(f, id, wl[1..], Heading(fr), count + 1);
        assert ([fr] + rest.0)[1..] == rest.0;
      } else {
        ClaimInterleaves(f, id, wl[1..], dir, count);
        var rest := Claim(f, id, wl[1..], dir, count);
        assert ([fr] + rest.1)[1..] == rest.1;
      }
    }
  }

  /** What is collected and what stays on the waitlist each keep the waitlist's order. */
  lemma {:induction false} ClaimKeepsOrder(f: Fleet, id: Int32, wl: seq<FloorRequest>, dir: MotorState, count: int)
    requires Valid(f)
    ensures var r := Claim(f, id, wl, dir, count); IsSubsequence(r.0, wl) && IsSubsequence(r.1, wl)
    decreases |wl|
  {
    if wl == [] || count >= MAX_CAPACITY {
      SubsequenceRefl(wl);
      EmptySubsequence(wl);
    } else {
      var fr := wl[0];
      if (dir == STOPPED || dir == Heading(fr)) && BestElevator(f, fr) == id {
        ClaimKeepsOrder(f, id, wl[1..], Heading(fr), count + 1);
        var rest := Claim(f, id, wl[1..], Heading(fr), count + 1);
        assert ([fr] + rest.0)[1..] == rest.0;
      } else {
        ClaimKeepsOrder(f, id, wl[1..], dir, count);
        var rest := Claim(f, id, wl[1..], dir, count);
        assert ([fr] + rest.1)[1..] == rest.1;
      }
    }
  }

  lemma {:induction false} EmptySubsequence(s: seq<FloorRequest>)
    ensures IsSubsequence([], s)
    decreases |s|
  {
    if s != [] {
      EmptySubsequence(s[1..]);
    }
  }

  lemma {:induction false} SubsequenceRefl(s: seq<FloorRequest>)
    ensures IsSubsequence(s, s)
    decreases |s|
  {
    if s != [] {
      SubsequenceRefl(s[1..]);
    }
  }

  /** `sendRequestsToElevator`, the filing loop: each request is filed by the floor of the elevator's snapshot. */
  function Send(f: Fleet, frs: seq<FloorRequest>, id: Int32): (g: Fleet)
    requires Valid(f) && id in f.elevators
    ensures Valid(g) && g.elevators == f.elevators && g.order == f.order && g.ports == f.ports
    ensures g.pickups.Keys == f.pickups.Keys
  {
    var l := FiledAll(frs, f.elevators[id].floor, ListsOf(f, id));
    f.(inService := f.inService[id := l.inService], pickups := f.pickups[id := l.pickups])
  }

  /**
   * Sending appends the requests from the elevator's floor to its requests in
   * service and the others to those assigned, in batch order, and leaves
   * every other elevator's lists alone.
   */
  lemma SendFiles(f: Fleet, frs: seq<FloorRequest>, id: Int32)
    requires Valid(f) && id in f.elevators
    ensures var g := Send(f, frs, id);
            g.inService[id] == f.inService[id] + Select(frs, SourceAt(f.elevators[id].floor))
            && g.pickups[id] == f.pickups[id] + Reject(frs, SourceAt(f.elevators[id].floor))
    ensures var g := Send(f, frs, id);
            forall k :: k in f.pickups && k != id ==> g.pickups[k] == f.pickups[k] && g.inService[k] == f.inService[k]
  {
    FiledAllSplits(frs, f.elevators[id].floor, ListsOf(f, id));
  }

  /** `register`: the port is recorded and the elevator starts with two empty lists, replacing any it had. */
  function Register(f: Fleet, id: Int32, port: Int32): (g: Fleet)
    requires Valid(f)
    ensures Valid(g) && Registered(g, id) && Waiting(g, id) && g.ports[id] == port
    ensures g.elevators == f.elevators && g.order == f.order
  {
    f.(ports := f.ports[id := port], inService := f.inService[id := []], pickups := f.pickups[id := []])
  }

  /**
   * `updateElevatorState`: the snapshot `e` replaces the stored one (a new
   * id joins the end of the enumeration); at a stop the passengers getting
   * off here leave service first, then those waiting here board.
   */
  function UpdateState(f: Fleet, e: ElevatorMessage): (g: Fleet)
    requires HasStopped(e) ==> Registered(f, e.id)
    ensures g.elevators == f.elevators[e.id := e] && g.ports == f.ports
    ensures g.pickups.Keys == f.pickups.Keys && g.inService.Keys == f.inService.Keys
  {
    var g := f.(elevators := f.elevators[e.id := e], order := if e.id in f.elevators then f.order else f.order + [e.id]);
    if HasStopped(e) then
      var l := AlightThenBoard(e.floor, ListsOf(f, e.id));
      g.(inService := g.inService[e.id := l.inService], pickups := g.pickups[e.id := l.pickups])
    else g
  }

  /** A snapshot keeps the fleet's shape. */
  lemma UpdateStateValid(f: Fleet, e: ElevatorMessage)
    requires Valid(f) && Registered(f, e.id)
    ensures Valid(UpdateState(f, e))
  {
    var g := UpdateState(f, e);
    assert forall n :: 0 <= n < |g.order| ==> g.order[n] in g.elevators by {
      forall n | 0 <= n < |g.order| ensures g.order[n] in g.elevators {
        if n < |f.order| {
          assert g.order[n] == f.order[n];
        }
      }
    }
  }

  /**
   * What a snapshot does to the lists: at a stop the elevator's lists are
   * those of `AlightThenBoard`; a moving elevator's lists, and every other
   * elevator's, are untouched.
   */
  lemma UpdateStateLists(f: Fleet, e: ElevatorMessage)
    requires HasStopped(e) ==> Registered(f, e.id)
    ensures var g := UpdateState(f, e);
            !HasStopped(e) ==> g.pickups == f.pickups && g.inService == f.inService
    ensures var g := UpdateState(f, e);
            HasStopped(e) ==> Registered(g, e.id) && ListsOf(g, e.id) == AlightThenBoard(e.floor, ListsOf(f, e.id))
    ensures var g := UpdateState(f, e);
            forall k :: k in f.pickups && k in f.inService && k != e.id ==> g.pickups[k] == f.pickups[k] && g.inService[k] == f.inService[k]
  {
  }

  /**
   * The state-update test: a moving elevator that never registered still has
   * its snapshot stored, and it gets no request lists.
   */
  lemma UpdateStateTest()
    ensures var em := ElevatorMessage(0, 1, UP, DoorStates.OPEN, ARRIVED);
            var g := UpdateState(Empty(), em);
            g.elevators[0] == em && g.order == [0] && !Registered(g, 0)
  {
  }

  /** `s` without `x`. */
  function Erase(s: seq<Int32>, x: Int32): (r: seq<Int32>)
    ensures forall y :: y in r <==> y in s && y != x
    ensures Distinct(s) ==> Distinct(r)
    decreases |s|
  {
    if s == [] then []
    else if s[0] == x then Erase(s[1..], x)
    else
      var t := Erase(s[1..], x);
      assert Distinct(s) ==> s[0] !in s[1..] by {
        if Distinct(s) {
          forall n | 0 <= n < |s[1..]| ensures s[1..][n] != s[0] {
            assert s[1..][n] == s[n + 1];
          }
        }
      }
      [s[0]] + t
  }

  /** The broken elevator leaves the snapshot map, its enumeration and both list maps; its port stays. */
  function Retire(f: Fleet, id: Int32): (g: Fleet)
    requires Valid(f)
    ensures Valid(g) && g.elevators == f.elevators - {id} && g.ports == f.ports
    ensures g.pickups == f.pickups - {id} && g.inService == f.inService - {id}
  {
    var g := Fleet(f.elevators - {id}, Erase(f.order, id), f.ports, f.pickups - {id}, f.inService - {id});
    assert forall n :: 0 <= n < |g.order| ==> g.order[n] in g.elevators by {
      forall n | 0 <= n < |g.order| ensures g.order[n] in g.elevators {
        assert g.order[n] in g.order;
      }
    }
    g
  }

  /** A sent message: the datagram carrying `m`'s bytes to `port`. */
  datatype Outgoing = Outgoing(message: Messages.Message, port: Int32)

  /**
   * One turn of the reallocation loop of `handleBrokenElevator`: a waiting
   * elevator collects a batch from the waitlist and, when the batch is not
   * empty, is sent it.
   */
  function Offer(f: Fleet, wl: seq<FloorRequest>, id: Int32): (r: (Fleet, seq<FloorRequest>, seq<Outgoing>))
    requires Valid(f) && id in f.elevators
    ensures Valid(r.0) && r.0.elevators == f.elevators && r.0.order == f.order && r.0.ports == f.ports
    ensures r.0.pickups.Keys == f.pickups.Keys
  {
    if Waiting(f, id) then
      var batch := Claim(f, id, wl, STOPPED, Held(f, id));
      if batch.0 != [] then
        (Send(f, batch.0, id), batch.1, [Outgoing(Messages.RequestList(RequestListMessages.RequestListMessage(batch.0)), f.ports[id])])
      else (f, batch.1, [])
    else (f, wl, [])
  }

  /** The reallocation loop over the elevators `ids`, in order. */
  function OfferAll(f: Fleet, wl: seq<FloorRequest>, ids: seq<Int32>): (r: (Fleet, seq<FloorRequest>, seq<Outgoing>))
    requires Valid(f) && Enumerates(f, ids)
    ensures Valid(r.0) && r.0.elevators == f.elevators && r.0.order == f.order && r.0.ports == f.ports
    ensures r.0.pickups.Keys == f.pickups.Keys
    decreases |ids|
  {
    if ids == [] then (f, wl, [])
    else
      var prev := OfferAll(f, wl, ids[..|ids| - 1]);
      var next := Offer(prev.0, prev.1, ids[|ids| - 1]);
      (next.0, next.1, prev.2 + next.2)
  }

  /**
   * `handleBrokenElevator`: the broken elevator's requests still to be picked
   * up return to the end of the waitlist, its passengers in service are
   * dropped, it is retired, and every waiting elevator is offered a batch.
   */
  function HandleBroken(f: Fleet, wl: seq<FloorRequest>, id: Int32): (r: (Fleet, seq<FloorRequest>, seq<Outgoing>))
    requires Valid(f) && Registered(f, id)
    ensures Valid(r.0) && r.0.elevators == f.elevators - {id} && r.0.ports == f.ports
    ensures r.0.pickups.Keys == f.pickups.Keys - {id}
  {
    var g := Retire(f, id);
    OfferAll(g, wl + f.pickups[id], g.order)
  }

  /** `isFinished`: no request is in service or assigned anywhere, and the waitlist is empty. */
  predicate Finished(f: Fleet, wl: seq<FloorRequest>)
  {
    (forall k :: k in f.inService ==> f.inService[k] == [])
    && (forall k :: k in f.pickups ==> f.pickups[k] == [])
    && wl == []
  }

  /** Some key of a non-empty map. */
  ghost function Pick(m: map<Int32, seq<FloorRequest>>): (k: Int32)
    requires m.Keys != {}
    ensures k in m
  {
    var k :| k in m.Keys; k
  }

  /** The requests in all the lists of a map, counted with multiplicity. */
  ghost function Total(m: map<Int32, seq<FloorRequest>>): multiset<FloorRequest>
    decreases |m.Keys|
  {
    if m.Keys == {} then multiset{}
    else multiset(m[Pick(m)]) + Total(m - {Pick(m)})
  }

  /** The total is the same whichever key is taken out first. */
  lemma {:induction false} TotalRemove(m: map<Int32, seq<FloorRequest>>, k: Int32)
    requires k in m
    ensures Total(m) == multiset(m[k]) + Total(m - {k})
    decreases |m.Keys|
  {
    var j := Pick(m);
    if j != k {
      var mj, mk := m - {j}, m - {k};
      assert mj.Keys == m.Keys - {j};
      assert mk.Keys == m.Keys - {k};
      TotalRemove(mj, k);
      TotalRemove(mk, j);
      assert mj - {k} == mk - {j};
    }
  }

  /** Replacing one list changes the total by exactly that list's requests. */
  lemma TotalUpdate(m: map<Int32, seq<FloorRequest>>, k: Int32, v: seq<FloorRequest>)
    requires k in m
    ensures Total(m[k := v]) + multiset(m[k]) == Total(m) + multiset(v)
  {
    TotalRemove(m, k);
    TotalRemove(m[k := v], k);
    assert m[k := v] - {k} == m - {k};
  }

  /** Every request the scheduler is responsible for: waiting, assigned or in service. */
  ghost function Pool(f: Fleet, wl: seq<FloorRequest>): multiset<FloorRequest>
  {
    multiset(wl) + Total(f.pickups) + Total(f.inService)
  }

  /**
   * `getFloorRequests` followed by `sendRequestsToElevator` moves requests
   * from the waitlist into one elevator's lists without losing or
   * duplicating any.
   */
  lemma {:induction false} ClaimThenSendConserves(f: Fleet, wl: seq<FloorRequest>, id: Int32)
    requires Valid(f) && id in f.elevators
    ensures var batch := Claim(f, id, wl, STOPPED, Held(f, id));
            Pool(Send(f, batch.0, id), batch.1) == Pool(f, wl)
  {
    var batch := Claim(f, id, wl, STOPPED, Held(f, id));
    ClaimPartitions(f, id, wl, STOPPED, Held(f, id));
    SendConserves(f, batch.1, batch.0, id);
    assert Pool(f, batch.1) + multiset(batch.0) == Pool(f, wl);
  }

  /** `sendRequestsToElevator` adds exactly the requests sent to the pool. */
  lemma {:induction false} SendConserves(f: Fleet, wl: seq<FloorRequest>, frs: seq<FloorRequest>, id: Int32)
    requires Valid(f) && id in f.elevators
    ensures Pool(Send(f, frs, id), wl) == Pool(f, wl) + multiset(frs)
  {
    var l := FiledAll(frs, f.elevators[id].floor, ListsOf(f, id));
    FiledAllConserves(frs, f.elevators[id].floor, ListsOf(f, id));
    assert multiset(wl) + multiset(frs) == multiset(wl + frs);
    ListsMoved(f, wl + frs, id, l, wl, multiset(frs), multiset{});
    assert Pool(f, wl + frs) == Pool(f, wl) + multiset(frs);
    assert Pool(Send(f, frs, id), wl) + multiset{} == Pool(Send(f, frs, id), wl);
  }

  /**
   * Replacing one elevator's lists by `l` and the waitlist by `wl2` changes
   * the pool only by `gone` when the lists gained what the waitlist lost,
   * `moved`, and lost `gone`.
   */
  lemma ListsMoved(f: Fleet, wl: seq<FloorRequest>, id: Int32, l: Lists, wl2: seq<FloorRequest>,
                   moved: multiset<FloorRequest>, gone: multiset<FloorRequest>)
    requires Valid(f) && Registered(f, id)
    requires multiset(wl2) + moved == multiset(wl)
    requires multiset(l.inService) + multiset(l.pickups) + gone
             == multiset(f.inService[id]) + multiset(f.pickups[id]) + moved
    ensures Pool(f.(inService := f.inService[id := l.inService], pickups := f.pickups[id := l.pickups]), wl2) + gone
            == Pool(f, wl)
  {
    var g := f.(inService := f.inService[id := l.inService], pickups := f.pickups[id := l.pickups]);
    var p, i := multiset(f.pickups[id]), multiset(f.inService[id]);
    var p2, i2 := multiset(l.pickups), multiset(l.inService);
    TotalUpdate(f.pickups, id, l.pickups);
    TotalUpdate(f.inService, id, l.inService);
    var tp, ti, tp2, ti2 := Total(f.pickups), Total(f.inService), Total(g.pickups), Total(g.inService);
    assert tp2 + p == tp + p2;
    assert ti2 + i == ti + i2;
    forall x ensures (Pool(g, wl2) + gone)[x] == Pool(f, wl)[x] {
      assert (tp2 + p)[x] == (tp + p2)[x];
      assert (ti2 + i)[x] == (ti + i2)[x];
      assert (i2 + p2 + gone)[x] == (i + p + moved)[x];
      assert (multiset(wl2) + moved)[x] == multiset(wl)[x];
    }
    assert Pool(g, wl2) + gone == Pool(f, wl);
  }

  /** One reallocation turn keeps every request. */
  lemma {:induction false} OfferConserves(f: Fleet, wl: seq<FloorRequest>, id: Int32)
    requires Valid(f) && id in f.elevators
    ensures var r := Offer(f, wl, id); Pool(r.0, r.1) == Pool(f, wl)
  {
    if Waiting(f, id) {
      ClaimThenSendConserves(f, wl, id);
      var batch := Claim(f, id, wl, STOPPED, Held(f, id));
      if batch.0 == [] {
        ClaimPartitions(f, id, wl, STOPPED, Held(f, id));
      }
    }
  }

  /** The whole reallocation loop keeps every request. */
  lemma {:induction false} OfferAllConserves(f: Fleet, wl: seq<FloorRequest>, ids: seq<Int32>)
    requires Valid(f) && Enumerates(f, ids)
    ensures var r := OfferAll(f, wl, ids); Pool(r.0, r.1) == Pool(f, wl)
    decreases |ids|
  {
    if ids != [] {
      var front := ids[..|ids| - 1];
      assert Enumerates(f, front) by {
        forall n | 0 <= n < |front| ensures front[n] in f.elevators {
          assert front[n] == ids[n];
        }
      }
      OfferAllConserves(f, wl, front);
      var prev := OfferAll(f, wl, front);
      OfferConserves(prev.0, prev.1, ids[|ids| - 1]);
    }
  }

  /**
   * A broken elevator's waiting passengers go back to the waitlist and every
   * other request stays; exactly its passengers in service are lost.
   */
  lemma {:induction false} HandleBrokenDropsOnlyInService(f: Fleet, wl: seq<FloorRequest>, id: Int32)
    requires Valid(f) && Registered(f, id)
    ensures var r := HandleBroken(f, wl, id); Pool(r.0, r.1) + multiset(f.inService[id]) == Pool(f, wl)
  {
    var g := Retire(f, id);
    OfferAllConserves(g, wl + f.pickups[id], g.order);
    TotalRemove(f.pickups, id);
    TotalRemove(f.inService, id);
  }

  /** At a stop the scheduler keeps every request except those of the passengers who got off here. */
  lemma {:induction false} UpdateStateConserves(f: Fleet, wl: seq<FloorRequest>, e: ElevatorMessage)
    requires Valid(f) && Registered(f, e.id)
    ensures HasStopped(e) ==>
              Pool(UpdateState(f, e), wl) + multiset(Select(f.inService[e.id], DestinationAt(e.floor))) == Pool(f, wl)
    ensures !HasStopped(e) ==> Pool(UpdateState(f, e), wl) == Pool(f, wl)
  {
    if HasStopped(e) {
      var l := AlightThenBoard(e.floor, ListsOf(f, e.id));
      var off := multiset(Select(f.inService[e.id], DestinationAt(e.floor)));
      AlightThenBoardConserves(e.floor, ListsOf(f, e.id));
      ListsMoved(f, wl, e.id, l, wl, multiset{}, off);
      assert multiset(wl) + multiset{} == multiset(wl);
    }
  }

  /** Two elevators moving up from floors 4 and 3, each holding a request 7 to 8, as a fleet. */
  function TwoElevators(): (f: Fleet)
    ensures Valid(f)
  {
    var e1 := ElevatorMessage(1, 4, UP, DoorStates.CLOSED, ARRIVED);
    var e2 := ElevatorMessage(2, 3, UP, DoorStates.CLOSED, ARRIVED);
    assert Distinct([1, 2]);
    Fleet(map[1 := e1, 2 := e2], [1, 2], map[1 := 0, 2 := 0],
          map[1 := [FloorRequest(0, 7, 8)], 2 := [FloorRequest(0, 7, 8)]], map[1 := [], 2 := []])
  }

  /** The best-elevator test: the nearer elevator takes a request 5 to 6, and nobody can take 2 to 1. */
  lemma {:induction false} BestElevatorTest()
    ensures BestElevator(TwoElevators(), FloorRequest(0, 5, 6)) == 1
    ensures BestElevator(TwoElevators(), FloorRequest(0, 2, 1)) == -1
  {
    var f := TwoElevators();
    var up, down := FloorRequest(0, 5, 6), FloorRequest(0, 2, 1);
    assert Candidates(f, up, [2]) == [f.elevators[2]];
    assert Candidates(f, up, f.order) == [f.elevators[1], f.elevators[2]];
    assert Candidates(f, down, [2]) == [];
    assert Candidates(f, down, f.order) == [];
  }

  /** The elevator of the batch test: at floor 4 moving up, holding a request 7 to 8. */
  function OneElevator(): (f: Fleet)
    ensures Valid(f)
  {
    var e := ElevatorMessage(1, 4, UP, DoorStates.CLOSED, ARRIVED);
    Fleet(map[1 := e], [1], map[1 := 0], map[1 := [FloorRequest(0, 7, 8)]], map[1 := []])
  }

  /** The batch test: of 5 to 6, 7 to 8 and 2 to 1 waiting, the elevator collects the two going up. */
  lemma {:induction false} GetFloorRequestsTest()
    ensures var wl := [FloorRequest(0, 5, 6), FloorRequest(0, 7, 8), FloorRequest(0, 2, 1)];
            Claim(OneElevator(), 1, wl, STOPPED, Held(OneElevator(), 1))
            == ([FloorRequest(0, 5, 6), FloorRequest(0, 7, 8)], [FloorRequest(0, 2, 1)])
  {
    var f := OneElevator();
    var a, b, c := FloorRequest(0, 5, 6), FloorRequest(0, 7, 8), FloorRequest(0, 2, 1);
    assert Candidates(f, a, f.order) == [f.elevators[1]];
    assert Candidates(f, b, f.order) == [f.elevators[1]];
    assert Candidates(f, c, f.order) == [];
    assert BestElevator(f, a) == 1 && BestElevator(f, b) == 1 && BestElevator(f, c) == -1;
    var wl := [a, b, c];
    assert wl[1..] == [b, c] && wl[1..][1..] == [c] && [c][1..] == [];
    assert Heading(a) == UP && Heading(b) == UP && Heading(c) == DOWN && Held(f, 1) == 1;
    assert [c][0] == c && [c][1..] == [] && Claim(f, 1, [], UP, 3) == ([], []);
    var r3 := Claim(f, 1, [c], UP, 3);
    assert r3.0 == [] && r3.1 == [c];
    var r2 := Claim(f, 1, [b, c], UP, 2);
    assert [b, c][1..] == [c];
    assert r2.0 == [b] + r3.0 && r2.1 == r3.1;
    assert r2.0 == [b];
    var r1 := Claim(f, 1, wl, STOPPED, 1);
    assert r1.0 == [a] + r2.0 && r1.1 == r2.1;
    assert r1.0 == [a, b];
    assert r1.1 == [c];
  }

  /** The breakdown test: the only elevator breaks holding a request 2 to 1, which returns to the waitlist. */
  lemma {:induction false} HandleBrokenTest()
    ensures var e := ElevatorMessage(1, 4, UP, DoorStates.CLOSED, ARRIVED);
            var f := Fleet(map[1 := e], [1], map[1 := 1], map[1 := [FloorRequest(0, 2, 1)]], map[1 := []]);
            Valid(f) && HandleBroken(f, [], 1).1 == [FloorRequest(0, 2, 1)]
  {
    var e := ElevatorMessage(1, 4, UP, DoorStates.CLOSED, ARRIVED);
    var f := Fleet(map[1 := e], [1], map[1 := 1], map[1 := [FloorRequest(0, 2, 1)]], map[1 := []]);
    assert Retire(f, 1).order == [];
  }
}
