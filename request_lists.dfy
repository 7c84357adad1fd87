/**
 * Lists of floor requests as both the elevator subsystem and the scheduler
 * keep them: the order-preserving filters their iterator loops leave behind,
 * and what the head of a list says about the direction of travel.
 */
module RequestLists {
  import opened FloorRequests

  /** Which requests an iterator loop picks out: those from a floor, or those to a floor. */
  datatype Criterion = SourceAt(floor: int) | DestinationAt(floor: int)

  predicate Meets(fr: FloorRequest, c: Criterion)
  {
    match c
    case SourceAt(f) => fr.sourceFloor == f
    case DestinationAt(f) => fr.destinationFloor == f
  }

  /** The requests of `s` that meet `c`, in their order in `s`. */
  function Select(s: seq<FloorRequest>, c: Criterion): (r: seq<FloorRequest>)
    ensures |r| <= |s|
  {
    if s == [] then [] else (if Meets(s[0], c) then [s[0]] else []) + Select(s[1..], c)
  }

  /** The requests of `s` that do not meet `c`, in their order in `s`. */
  function Reject(s: seq<FloorRequest>, c: Criterion): (r: seq<FloorRequest>)
    ensures |r| <= |s|
  {
    if s == [] then [] else (if Meets(s[0], c) then [] else [s[0]]) + Reject(s[1..], c)
  }

  /** `Select` keeps exactly the requests that meet the criterion, and `Reject` exactly the others. */
  lemma {:induction false} FilterMembers(s: seq<FloorRequest>, c: Criterion)
    ensures forall x :: x in Select(s, c) <==> x in s && Meets(x, c)
    ensures forall x :: x in Reject(s, c) <==> x in s && !Meets(x, c)
  {
    if s != [] {
      FilterMembers(s[1..], c);
      assert s == [s[0]] + s[1..];
    }
  }

  lemma {:induction false} SelectAppend(a: seq<FloorRequest>, b: seq<FloorRequest>, c: Criterion)
    ensures Select(a + b, c) == Select(a, c) + Select(b, c)
  {
    if a != [] {
      assert (a + b)[1..] == a[1..] + b;
      SelectAppend(a[1..], b, c);
    } else {
      assert a + b == b;
    }
  }

  lemma {:induction false} RejectAppend(a: seq<FloorRequest>, b: seq<FloorRequest>, c: Criterion)
    ensures Reject(a + b, c) == Reject(a, c) + Reject(b, c)
  {
    if a != [] {
      assert (a + b)[1..] == a[1..] + b;
      RejectAppend(a[1..], b, c);
    } else {
      assert a + b == b;
    }
  }

  /** Extending a processed prefix by one request extends exactly one of the two filtered lists. */
  lemma Step(s: seq<FloorRequest>, j: nat, c: Criterion)
    requires j < |s|
    ensures Select(s[..j + 1], c) == Select(s[..j], c) + if Meets(s[j], c) then [s[j]] else []
    ensures Reject(s[..j + 1], c) == Reject(s[..j], c) + if Meets(s[j], c) then [] else [s[j]]
  {
    assert s[..j + 1] == s[..j] + [s[j]];
    SelectAppend(s[..j], [s[j]], c);
    RejectAppend(s[..j], [s[j]], c);
  }

  /** Moving one request across the seam of a concatenation. */
  lemma ConsAssoc(p: seq<FloorRequest>, x: FloorRequest, q: seq<FloorRequest>)
    ensures p + ([x] + q) == (p + [x]) + q
  {
  }

  /** The prefix through position `i` is the prefix before it plus that request. */
  lemma PrefixSnoc(s: seq<FloorRequest>, i: nat)
    requires i < |s|
    ensures s[..i + 1] == s[..i] + [s[i]]
  {
  }

  /** Removing position `i` keeps the prefix before it and shifts the rest down. */
  lemma RemoveAt(s: seq<FloorRequest>, i: nat)
    requires i < |s|
    ensures var t := s[..i] + s[i + 1..]; t[..i] == s[..i] && t[i..] == s[i + 1..]
  {
  }

  /**
   * One turn of an iterator loop that removes the requests meeting `c` in
   * place: `cur` is the list after `j` turns, and `i` its cursor.
   */
  lemma {:induction false} RemovalStep(s: seq<FloorRequest>, j: nat, c: Criterion, cur: seq<FloorRequest>, i: nat)
    requires j < |s| && cur == Reject(s[..j], c) + s[j..] && i == |Reject(s[..j], c)|
    ensures i < |cur| && cur[i] == s[j]
    ensures Select(s[..j + 1], c) == Select(s[..j], c) + if Meets(s[j], c) then [s[j]] else []
    ensures Meets(s[j], c) ==>
              cur[..i] + cur[i + 1..] == Reject(s[..j + 1], c) + s[j + 1..] && i == |Reject(s[..j + 1], c)|
    ensures !Meets(s[j], c) ==>
              cur == Reject(s[..j + 1], c) + s[j + 1..] && i + 1 == |Reject(s[..j + 1], c)|
  {
    Step(s, j, c);
    assert s[j..] == [s[j]] + s[j + 1..];
    assert cur[..i] == Reject(s[..j], c);
    assert cur[i + 1..] == s[j + 1..];
  }

  /** The two filters split a list: no request is lost or duplicated. */
  lemma {:induction false} Split(s: seq<FloorRequest>, c: Criterion)
    ensures multiset(Select(s, c)) + multiset(Reject(s, c)) == multiset(s)
  {
    if s != [] {
      Split(s[1..], c);
      var head, tail := [s[0]], s[1..];
      assert s == head + tail;
      if Meets(s[0], c) {
        assert Select(s, c) == head + Select(tail, c) && Reject(s, c) == Reject(tail, c);
      } else {
        assert Select(s, c) == Select(tail, c) && Reject(s, c) == head + Reject(tail, c);
      }
    }
  }

  /** `a` is `b` with some elements left out, the rest in their original order. */
  predicate IsSubsequence(a: seq<FloorRequest>, b: seq<FloorRequest>)
    decreases |b|
  {
    if b == [] then a == []
    else (a != [] && a[0] == b[0] && IsSubsequence(a[1..], b[1..])) || IsSubsequence(a, b[1..])
  }

  /** A filter never reorders: what it keeps is a subsequence of its input. */
  lemma {:induction false} FiltersKeepOrder(s: seq<FloorRequest>, c: Criterion)
    ensures IsSubsequence(Select(s, c), s) && IsSubsequence(Reject(s, c), s)
  {
    if s != [] {
      FiltersKeepOrder(s[1..], c);
      if Meets(s[0], c) {
        assert Select(s, c)[1..] == Select(s[1..], c);
        assert Reject(s, c) == Reject(s[1..], c);
      } else {
        assert Reject(s, c)[1..] == Reject(s[1..], c);
        assert Select(s, c) == Select(s[1..], c);
      }
    }
  }

  /** `s` is a merge of `a` and `b`: taking each request of `s` in turn from the front of one of them. */
  predicate Interleaves(a: seq<FloorRequest>, b: seq<FloorRequest>, s: seq<FloorRequest>)
    decreases |s|
  {
    if s == [] then a == [] && b == []
    else
      (a != [] && a[0] == s[0] && Interleaves(a[1..], b, s[1..]))
      || (b != [] && b[0] == s[0] && Interleaves(a, b[1..], s[1..]))
  }

  /** A list is the merge of nothing and itself. */
  lemma {:induction false} InterleavesSelf(s: seq<FloorRequest>)
    ensures Interleaves([], s, s)
    decreases |s|
  {
    if s != [] {
      InterleavesSelf(s[1..]);
    }
  }

  /** A merge loses and duplicates nothing. */
  lemma {:induction false} InterleavesPartition(a: seq<FloorRequest>, b: seq<FloorRequest>, s: seq<FloorRequest>)
    requires Interleaves(a, b, s)
    ensures multiset(a) + multiset(b) == multiset(s)
    decreases |s|
  {
    if s != [] {
      assert s == [s[0]] + s[1..];
      if a != [] && a[0] == s[0] && Interleaves(a[1..], b, s[1..]) {
        InterleavesPartition(a[1..], b, s[1..]);
        assert a == [a[0]] + a[1..];
      } else {
        InterleavesPartition(a, b[1..], s[1..]);
        assert b == [b[0]] + b[1..];
      }
    }
  }

  /** The first request in service, or else the first request still to be picked up, is going up. */
  predicate LeadsUp(inService: seq<FloorRequest>, pickups: seq<FloorRequest>)
  {
    (|inService| > 0 && IsGoingUp(inService[0])) || (|pickups| > 0 && IsGoingUp(pickups[0]))
  }

  /** The first request in service, or else the first request still to be picked up, is not going up. */
  predicate LeadsDown(inService: seq<FloorRequest>, pickups: seq<FloorRequest>)
  {
    (|inService| > 0 && !IsGoingUp(inService[0])) || (|pickups| > 0 && !IsGoingUp(pickups[0]))
  }

  /** Some list has a head, and each head points one way or the other. */
  lemma {:induction false} LeadsSomewhere(inService: seq<FloorRequest>, pickups: seq<FloorRequest>)
    ensures LeadsUp(inService, pickups) || LeadsDown(inService, pickups) <==> inService != [] || pickups != []
  {
  }

  /** An elevator's two lists: the requests in service (boarded) and those still to be picked up. */
  datatype Lists = Lists(inService: seq<FloorRequest>, pickups: seq<FloorRequest>)

  /** The requests whose passengers board at `floor`. */
  function Boarding(floor: int, l: Lists): seq<FloorRequest>
  {
    Select(l.pickups, SourceAt(floor))
  }

  /**
   * The elevator's bookkeeping at a stop: the passengers waiting here board,
   * and then everyone in service whose destination is here gets off.
   */
  function BoardThenAlight(floor: int, l: Lists): Lists
  {
    Lists(Reject(l.inService + Boarding(floor, l), DestinationAt(floor)), Reject(l.pickups, SourceAt(floor)))
  }

  /**
   * The scheduler's bookkeeping at a stop: the passengers in service whose
   * destination is here get off, and then those waiting here board.
   */
  function AlightThenBoard(floor: int, l: Lists): Lists
  {
    Lists(Reject(l.inService, DestinationAt(floor)) + Boarding(floor, l), Reject(l.pickups, SourceAt(floor)))
  }

  /**
   * After the elevator's stop nobody is left waiting at the floor or riding
   * to it, and every request still listed was listed before.
   */
  lemma {:induction false} BoardThenAlightClearsFloor(floor: int, l: Lists)
    ensures var r := BoardThenAlight(floor, l);
            forall fr :: fr in r.inService <==> fr in l.inService + Boarding(floor, l) && fr.destinationFloor != floor
    ensures var r := BoardThenAlight(floor, l);
            forall fr :: fr in r.pickups <==> fr in l.pickups && fr.sourceFloor != floor
  {
    FilterMembers(l.inService + Boarding(floor, l), DestinationAt(floor));
    FilterMembers(l.pickups, SourceAt(floor));
  }

  /**
   * After the scheduler's stop nobody is left waiting at the floor, and the
   * only passengers it keeps riding to the floor are those who just boarded.
   */
  lemma {:induction false} AlightThenBoardClearsFloor(floor: int, l: Lists)
    ensures var r := AlightThenBoard(floor, l);
            forall fr :: fr in r.pickups <==> fr in l.pickups && fr.sourceFloor != floor
    ensures var r := AlightThenBoard(floor, l);
            forall fr :: fr in r.inService && fr.destinationFloor == floor <==> fr in Boarding(floor, l) && fr.destinationFloor == floor
  {
    FilterMembers(l.inService, DestinationAt(floor));
    FilterMembers(l.pickups, SourceAt(floor));
  }

  /** Elevator side: every request either stays in a list or is one of the passengers who got off. */
  lemma {:induction false} BoardThenAlightConserves(floor: int, l: Lists)
    ensures var r := BoardThenAlight(floor, l);
            multiset(r.inService) + multiset(r.pickups)
              + multiset(Select(l.inService + Boarding(floor, l), DestinationAt(floor)))
            == multiset(l.inService) + multiset(l.pickups)
  {
    var boarding := Boarding(floor, l);
    var all := l.inService + boarding;
    var off := Select(all, DestinationAt(floor));
    var staying := Reject(all, DestinationAt(floor));
    var waiting := Reject(l.pickups, SourceAt(floor));
    Split(all, DestinationAt(floor));
    Split(l.pickups, SourceAt(floor));
    calc {
      multiset(staying) + multiset(waiting) + multiset(off);
      multiset(all) + multiset(waiting);
      multiset(l.inService) + multiset(boarding) + multiset(waiting);
      multiset(l.inService) + multiset(l.pickups);
    }
  }

  /** Scheduler side: every request either stays in a list or is one of the passengers who got off. */
  lemma {:induction false} AlightThenBoardConserves(floor: int, l: Lists)
    ensures var r := AlightThenBoard(floor, l);
            multiset(r.inService) + multiset(r.pickups) + multiset(Select(l.inService, DestinationAt(floor)))
            == multiset(l.inService) + multiset(l.pickups)
  {
    Split(l.inService, DestinationAt(floor));
    Split(l.pickups, SourceAt(floor));
  }

  lemma {:induction false} RejectNone(s: seq<FloorRequest>, c: Criterion)
    requires forall x :: x in s ==> !Meets(x, c)
    ensures Reject(s, c) == s
  {
    if s != [] {
      RejectNone(s[1..], c);
      assert s == [s[0]] + s[1..];
    }
  }

  /** The two orders agree unless someone boards at the very floor they are going to. */
  lemma {:induction false} OrdersAgree(floor: int, l: Lists)
    requires forall fr :: fr in Boarding(floor, l) ==> fr.destinationFloor != floor
    ensures BoardThenAlight(floor, l) == AlightThenBoard(floor, l)
  {
    RejectAppend(l.inService, Boarding(floor, l), DestinationAt(floor));
    RejectNone(Boarding(floor, l), DestinationAt(floor));
  }

  /** A request from floor 3 to floor 3 is dropped at once by the elevator but kept in service by the scheduler. */
  lemma OrdersDiffer()
    ensures BoardThenAlight(3, Lists([], [FloorRequest(0, 3, 3)])) == Lists([], [])
    ensures AlightThenBoard(3, Lists([], [FloorRequest(0, 3, 3)])) == Lists([FloorRequest(0, 3, 3)], [])
  {
  }

  /**
   * Filing one request with an elevator at `floor`: a request from that
   * floor is in service at once; any other waits to be picked up.
   */
  function Filed(fr: FloorRequest, floor: int, l: Lists): Lists
  {
    if fr.sourceFloor == floor then Lists(l.inService + [fr], l.pickups)
    else Lists(l.inService, l.pickups + [fr])
  }

  /** Filing a batch of requests one after another, in list order. */
  function FiledAll(frs: seq<FloorRequest>, floor: int, l: Lists): Lists
    decreases |frs|
  {
    if frs == [] then l else Filed(frs[|frs| - 1], floor, FiledAll(frs[..|frs| - 1], floor, l))
  }

  /**
   * Filing a batch appends the requests from `floor` to the requests in
   * service and the rest to those to pick up, each in batch order.
   */
  lemma {:induction false} FiledAllSplits(frs: seq<FloorRequest>, floor: int, l: Lists)
    ensures FiledAll(frs, floor, l)
            == Lists(l.inService + Select(frs, SourceAt(floor)), l.pickups + Reject(frs, SourceAt(floor)))
  {
    if frs != [] {
      var n := |frs| - 1;
      FiledAllSplits(frs[..n], floor, l);
      Step(frs, n, SourceAt(floor));
      assert frs[..n + 1] == frs;
    }
  }

  /** Filing a batch neither loses nor duplicates a request. */
  lemma {:induction false} FiledAllConserves(frs: seq<FloorRequest>, floor: int, l: Lists)
    ensures var r := FiledAll(frs, floor, l);
            multiset(r.inService) + multiset(r.pickups) == multiset(l.inService) + multiset(l.pickups) + multiset(frs)
  {
    FiledAllSplits(frs, floor, l);
    Split(frs, SourceAt(floor));
  }

  /**
   * An iterator loop calling `remove()` on every request that meets `c`:
   * what stays in the list, and what was taken out, both in list order.
   */
  method RemoveMatching(s: seq<FloorRequest>, c: Criterion) returns (kept: seq<FloorRequest>, removed: seq<FloorRequest>)
    ensures kept == Reject(s, c) && removed == Select(s, c)
  {
    kept := s;
    removed := [];
    var i := 0;
    ghost var j := 0;
    while i < |kept|
      invariant 0 <= j <= |s|
      invariant kept == Reject(s[..j], c) + s[j..]
      invariant i == |Reject(s[..j], c)|
      invariant removed == Select(s[..j], c)
      decreases |s| - j
    {
      RemovalStep(s, j, c, kept, i);
      if Meets(kept[i], c) {
        removed := removed + [kept[i]];
        kept := kept[..i] + kept[i + 1..];
      } else {
        i := i + 1;
      }
      j := j + 1;
    }
    assert s[..j] == s;
  }
}
