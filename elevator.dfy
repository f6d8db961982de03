/** One elevator car: a SCAN-style sweep over three signed-floor queues.

    A stop is stored as `floor * Value(direction)`, so one ascending queue
    serves an upward sweep (floors in ascending order) and a downward sweep
    (negated floors, so the highest floor comes first) alike.
      - `current`:  stops ahead in the active sweep;
      - `opposite`: stops served after the next reversal;
      - `trailing`: stops that were behind the car when scheduled, served one
                    sweep later than `opposite`. */
module Elevators {
  import opened Basics
  import opened Directions
  import opened Passengers
  import opened Heaps

  /** The observable state of an elevator. `count` is `passenger_count` and
      `dwell` is `current_stop_remaining`. */
  datatype Car = Car(
    numFloors: int, maxCapacity: int, stopTime: int,
    floor: int, direction: Direction, count: int, dwell: int,
    idleTarget: Option<int>,
    trailing: seq<int>, opposite: seq<int>, current: seq<int>)

  /** The three queues are ordered, as heaps ordered by `heapq` are. */
  predicate Ordered(c: Car)
  {
    Sorted(c.trailing) && Sorted(c.opposite) && Sorted(c.current)
  }

  /** A car that is on a floor of the building and whose queues are ordered. */
  predicate Valid(c: Car)
  {
    1 <= c.floor <= c.numFloors && Ordered(c)
  }

  /** All scheduled stops, with their multiplicities. */
  function Entries(c: Car): multiset<int>
  {
    multiset(c.trailing) + multiset(c.opposite) + multiset(c.current)
  }

  /** `max(1, min(num_floors, f))`. */
  function Clamp(c: Car, f: int): (r: int)
    ensures 1 <= r
    ensures c.numFloors >= 1 ==> r <= c.numFloors
    ensures 1 <= f <= c.numFloors ==> r == f
  {
    Max(1, Min(c.numFloors, f))
  }

  // ---------------------------------------------------------------- queries

  /** `is_empty`: no stop is scheduled in any of the three queues. */
  function IsEmpty(c: Car): (r: bool)
    ensures r <==> c.trailing == [] && c.opposite == [] && c.current == []
    ensures r <==> |Entries(c)| == 0
  {
    |c.trailing| + |c.opposite| + |c.current| == 0
  }

  /** `is_idle`: the car's direction is IDLE. */
  function IsIdle(c: Car): bool
  {
    c.direction == Idle
  }

  /** `can_accommodate`: fewer passengers aboard than the capacity. */
  function CanAccommodate(c: Car): bool
  {
    c.count < c.maxCapacity
  }

  /** `has_target_with_direction`: some queue holds the signed stop `target * d`. */
  function HasTargetWithDirection(c: Car, target: int, d: Direction): (r: bool)
    ensures r <==> Scale(target, d) in Entries(c)
  {
    var signed := Scale(target, d);
    signed in c.trailing || signed in c.opposite || signed in c.current
  }

  /** `sum({1 for t in s if t <= x})`: the comprehension builds a set, so the
      result is 1 if any entry is at most `x` and 0 otherwise. */
  function AnyAtMost(s: seq<int>, x: int): (r: int)
    ensures r == 0 || r == 1
    ensures r == 1 <==> exists k :: 0 <= k < |s| && s[k] <= x
  {
    if exists k :: 0 <= k < |s| && s[k] <= x then 1 else 0
  }

  /** `len(set(s))`: the number of distinct entries. */
  function Distinct(s: seq<int>): nat
  {
    |set t | t in s|
  }

  /** `max(s) if s else 0`. */
  function LargestOrZero(s: seq<int>): int
  {
    if |s| == 0 then 0 else Largest(s)
  }

  lemma ScaledNonneg(a: nat, b: int)
    ensures b >= 0 ==> a * b >= 0
  {
  }

  /** `distance_from`: the estimated number of ticks before the car is at
      `target` travelling `d`. For a moving car it adds the remaining sweep,
      the dwell of the stops on the way, and the legs after one or two
      reversals; it is never less than the plain floor distance. */
  function DistanceFrom(c: Car, target: int, d: Direction): (r: int)
    ensures c.direction == Idle ==> r == Abs(target - c.floor)
    ensures c.stopTime >= 0 ==> r >= Abs(target - c.floor)
  {
    if c.direction == Idle then Abs(target - c.floor)
    else
      var signed := Scale(target, d);
      if Scale(c.floor, c.direction) < signed then
        Abs(target - c.floor) + AnyAtMost(c.current, signed) * c.stopTime
      else
        var endOfCurrentSweep := Abs(Max(Scale(Abs(LargestOrZero(c.current)), c.direction), Scale(Abs(LargestOrZero(c.opposite)), c.direction)));
        var distanceToTurn := Abs(c.floor - Abs(endOfCurrentSweep)) + Distinct(c.current) * c.stopTime;
        ScaledNonneg(Distinct(c.current), c.stopTime);
        ScaledNonneg(Distinct(c.opposite), c.stopTime);
        if d != c.direction then
          distanceToTurn
          + (Abs(Abs(endOfCurrentSweep) - target) + AnyAtMost(c.opposite, signed) * c.stopTime)
        else
          var endOfNextSweep := Abs(Max(Scale(Abs(LargestOrZero(c.trailing)), c.direction), Scale(Abs(LargestOrZero(c.opposite)), c.direction)));
          distanceToTurn
          + (Abs(Abs(endOfNextSweep) - Abs(endOfCurrentSweep)) + Distinct(c.opposite) * c.stopTime)
          + (Abs(Abs(endOfNextSweep) - target) + AnyAtMost(c.trailing, signed) * c.stopTime)
  }

  // ------------------------------------------------------- adjust_targets

  /** The inner `while` of `adjust_targets`: pop every stop of the current
      sweep that the car has reached; each pop arms the dwell counter. */
  function PopReached(c: Car): Car
    decreases |c.current|
  {
    if |c.current| > 0 && c.current[0] <= Scale(c.floor, c.direction) then
      PopReached(c.(current := c.current[1..], dwell := c.stopTime))
    else c
  }

  /** Reversal: the opposite queue becomes the current sweep and the trailing
      queue becomes the opposite one. */
  function Rotate(c: Car): Car
  {
    c.(direction := Reverse(c.direction), trailing := [], opposite := c.trailing, current := c.opposite)
  }

  /** What `adjust_targets` does once the current sweep has no stop left:
      head on to the first stop of the opposite queue when it still lies
      ahead (the head is copied, not popped), or else reverse. */
  function Turn(c: Car): Car
    requires c.current == []
  {
    var start := if |c.opposite| > 0 then Scale(c.opposite[0], Reverse(c.direction)) else Scale(c.floor, Reverse(c.direction));
    // the current heap is empty here, so the heappush leaves exactly one entry
    if Scale(start - c.floor, c.direction) > 0 then c.(current := [Scale(start, c.direction)])
    else Rotate(c)
  }

  /** `rounds` more passes of the outer loop of `adjust_targets`. */
  function Settle(c: Car, rounds: nat): Car
    requires rounds >= 1
    decreases rounds
  {
    var p := PopReached(c);
    if |p.current| > 0 then p
    else if rounds == 1 then Turn(p)
    else Settle(Turn(p), rounds - 1)
  }

  /** `adjust_targets`: at most three passes of pop-then-turn. */
  function Adjusted(c: Car): Car
  {
    Settle(c, 3)
  }

  /** Popping reached stops removes only entries at or behind the car in the
      sweep direction, arms the dwell counter exactly when it removes one,
      and touches nothing else. */
  lemma {:induction false} PopReachedFacts(c: Car)
    ensures var r := PopReached(c);
      r == c.(current := r.current, dwell := r.dwell)
      && |r.current| <= |c.current|
      && r.current == c.current[|c.current| - |r.current|..]
      && (forall k :: 0 <= k < |c.current| - |r.current| ==> c.current[k] <= Scale(c.floor, c.direction))
      && (r.current == [] || r.current[0] > Scale(c.floor, c.direction))
      && (|r.current| == |c.current| ==> r == c)
      && (|r.current| < |c.current| ==> r.dwell == c.stopTime)
      && (Sorted(c.current) ==> Sorted(r.current))
    decreases |c.current|
  {
    if |c.current| > 0 && c.current[0] <= Scale(c.floor, c.direction) {
      var c' := c.(current := c.current[1..], dwell := c.stopTime);
      PopReachedFacts(c');
      var r := PopReached(c');
      assert PopReached(c) == r;
      assert r.current == c'.current[|c'.current| - |r.current|..];
      assert c'.current[|c'.current| - |r.current|..] == c.current[|c.current| - |r.current|..];
      forall k | 0 <= k < |c.current| - |r.current|
        ensures c.current[k] <= Scale(c.floor, c.direction)
      {
        if k > 0 { assert c.current[k] == c'.current[k - 1]; }
      }
    }
  }

  /** A reversal keeps every scheduled stop: nothing is lost or duplicated. */
  lemma RotatePreservesEntries(c: Car)
    requires c.current == []
    ensures Entries(Rotate(c)) == Entries(c)
    ensures Rotate(c).direction == Reverse(c.direction)
  {
  }

  /** The head copied into the current queue lies strictly ahead of the car. */
  lemma TurnAhead(c: Car)
    requires c.current == []
    ensures var t := Turn(c);
      (t.current != [] && t.direction == c.direction
        && t == c.(current := t.current) && |t.current| == 1
        && t.current[0] > Scale(c.floor, c.direction))
      || t == Rotate(c)
  {
    var start := if |c.opposite| > 0 then Scale(c.opposite[0], Reverse(c.direction)) else Scale(c.floor, Reverse(c.direction));
    match c.direction
    case Up =>
    case Down =>
    case Idle =>
  }

  /** With the trailing and opposite queues already empty, the last pass
      cannot leave a lone stop behind: either a current stop lies ahead or
      everything is empty. Requires a car on a floor >= 1. */
  lemma {:induction false} SettleShape(c: Car, rounds: nat)
    requires 1 <= rounds <= 3 && c.floor >= 1
    requires rounds <= 2 ==> c.trailing == []
    requires rounds <= 1 ==> c.opposite == []
    ensures var r := Settle(c, rounds);
      IsEmpty(r) || (r.current != [] && r.current[0] > Scale(r.floor, r.direction))
    decreases rounds
  {
    var p := PopReached(c);
    PopReachedFacts(c);
    if |p.current| == 0 {
      var t := Turn(p);
      TurnAhead(p);
      if t != Rotate(p) {
        if rounds > 1 {
          PopReachedFacts(t);
          assert PopReached(t) == t;
        }
      } else if rounds == 1 {
        match p.direction
        case Up =>
        case Down =>
        case Idle =>
      } else {
        SettleShape(t, rounds - 1);
      }
    }
  }

  /** When `adjust_targets` returns, either no stop is left at all or the
      current queue is non-empty and its head lies ahead of the car; this is
      what makes the read of `cur_dir[0]` in `move` safe. */
  lemma AdjustedShape(c: Car)
    requires c.floor >= 1
    ensures IsEmpty(Adjusted(c))
      || (Adjusted(c).current != [] && Adjusted(c).current[0] > Scale(Adjusted(c).floor, Adjusted(c).direction))
  {
    SettleShape(c, 3);
  }

  /** Settling changes no field but the queues, the dwell counter and the
      direction, which ends either unchanged or reversed. It keeps the queues
      ordered, and it arms the dwell counter whenever the head of the current
      queue has been reached. */
  lemma {:induction false} SettleFacts(c: Car, rounds: nat)
    requires rounds >= 1
    ensures var r := Settle(c, rounds);
      r == c.(direction := r.direction, dwell := r.dwell, trailing := r.trailing,
              opposite := r.opposite, current := r.current)
      && (r.direction == c.direction || r.direction == Reverse(c.direction))
      && (r.dwell == c.dwell || r.dwell == c.stopTime)
      && (c.current != [] && c.current[0] <= Scale(c.floor, c.direction) ==> r.dwell == c.stopTime)
      && (Ordered(c) ==> Ordered(r))
    decreases rounds
  {
    var p := PopReached(c);
    PopReachedFacts(c);
    if |p.current| == 0 {
      var t := Turn(p);
      TurnAhead(p);
      if rounds > 1 {
        SettleFacts(t, rounds - 1);
        ReverseInvolutive(c.direction);
      }
    }
  }

  /** `adjust_targets` never moves the car and never changes its load. */
  lemma AdjustedFacts(c: Car)
    ensures var r := Adjusted(c);
      r.floor == c.floor && r.count == c.count && r.numFloors == c.numFloors
      && r.maxCapacity == c.maxCapacity && r.stopTime == c.stopTime && r.idleTarget == c.idleTarget
      && (r.direction == c.direction || r.direction == Reverse(c.direction))
      && (r.dwell == c.dwell || r.dwell == c.stopTime)
      && (c.current != [] && c.current[0] <= Scale(c.floor, c.direction) ==> r.dwell == c.stopTime)
      && (Valid(c) ==> Valid(r))
  {
    SettleFacts(c, 3);
  }

  /** The direction changes only once the current sweep is exhausted: while a
      current stop lies ahead, `adjust_targets` only pops reached stops. */
  lemma AdjustedKeepsSweep(c: Car)
    requires PopReached(c).current != []
    ensures Adjusted(c) == PopReached(c)
    ensures Adjusted(c).direction == c.direction
    ensures Entries(Adjusted(c)) <= Entries(c)
  {
    PopReachedFacts(c);
    var r := PopReached(c);
    assert c.current == c.current[..|c.current| - |r.current|] + r.current;
  }

  // ----------------------------------------------------------------- move

  /** The drift of an unscheduled car one floor toward its idle target
      (`move` with empty queues), direction IDLE. */
  function Drift(a: Car, target: int): Car
  {
    var b := a.(direction := Idle);
    var f1 := if target < b.floor then Clamp(b, b.floor - 1) else b.floor;
    var f2 := if target > f1 then Clamp(b, f1 + 1) else f1;
    b.(floor := Clamp(b, f2 + Value(b.direction)))
  }

  /** The step of a scheduled car: take the sign of the head of the current
      queue as the direction and move one floor that way. */
  function Advance(a: Car): Car
    requires a.current != []
  {
    var d := if a.current[0] > 0 then Up else if a.current[0] < 0 then Down else a.direction;
    a.(direction := d, floor := Clamp(a, a.floor + Value(d)))
  }

  /** `move`: settle arrivals; then dwell, or drift toward the idle target,
      or step one floor toward the head of the current queue; then settle
      again. */
  function Moved(c: Car): Car
    requires Valid(c)
  {
    var a := Adjusted(c);
    AdjustedFacts(c);
    AdjustedShape(c);
    if a.dwell > 0 then a.(dwell := a.dwell - 1)
    else if IsEmpty(a) then
      match a.idleTarget
      case None => a.(direction := Idle)
      case Some(t) => Adjusted(Drift(a, t))
    else Adjusted(Advance(a))
  }

  /** `Moved` while the settled car is still dwelling at a stop. */
  lemma MovedDwelling(c: Car)
    requires Valid(c) && Adjusted(c).dwell > 0
    ensures Moved(c) == Adjusted(c).(dwell := Adjusted(c).dwell - 1)
  {
  }

  /** `Moved` for a settled car with no stops and no idle target. */
  lemma MovedParked(c: Car)
    requires Valid(c) && Adjusted(c).dwell <= 0 && IsEmpty(Adjusted(c)) && Adjusted(c).idleTarget.None?
    ensures Moved(c) == Adjusted(c).(direction := Idle)
  {
  }

  /** `Moved` for a settled car with no stops but an idle target. */
  lemma MovedDrifting(c: Car)
    requires Valid(c) && Adjusted(c).dwell <= 0 && IsEmpty(Adjusted(c)) && Adjusted(c).idleTarget.Some?
    ensures Moved(c) == Adjusted(Drift(Adjusted(c), Adjusted(c).idleTarget.value))
  {
  }

  /** `Moved` for a settled car with a stop ahead. */
  lemma MovedAdvancing(c: Car)
    requires Valid(c) && Adjusted(c).dwell <= 0 && !IsEmpty(Adjusted(c))
    ensures Adjusted(c).current != []
    ensures Moved(c) == Adjusted(Advance(Adjusted(c)))
  {
    AdjustedShape(c);
  }

  /** A move keeps the car inside the building, changes its floor by at most
      one and never changes its load or its idle target. */
  lemma MovedStaysInBuilding(c: Car)
    requires Valid(c)
    ensures Valid(Moved(c))
    ensures -1 <= Moved(c).floor - c.floor <= 1
    ensures Moved(c).count == c.count && Moved(c).idleTarget == c.idleTarget
    ensures Moved(c).numFloors == c.numFloors && Moved(c).maxCapacity == c.maxCapacity
    ensures Moved(c).stopTime == c.stopTime
  {
    var a := Adjusted(c);
    AdjustedFacts(c);
    AdjustedShape(c);
    if a.dwell <= 0 && IsEmpty(a) && a.idleTarget.Some? {
      AdjustedFacts(Drift(a, a.idleTarget.value));
    } else if a.dwell <= 0 && !IsEmpty(a) {
      AdjustedFacts(Advance(a));
    }
  }

  /** While the doors are held open the car stays put and the counter runs down. */
  lemma MovedWhileDwelling(c: Car)
    requires Valid(c) && Adjusted(c).dwell > 0
    ensures Moved(c) == Adjusted(c).(dwell := Adjusted(c).dwell - 1)
    ensures Moved(c).floor == c.floor
  {
    AdjustedFacts(c);
  }

  /** Settling a car with nothing scheduled changes nothing. */
  lemma AdjustedUnscheduled(e: Car)
    requires IsEmpty(e) && e.direction == Idle
    ensures Adjusted(e) == e
  {
    assert PopReached(e) == e;
    assert Turn(e) == Rotate(e) == e;
    assert Settle(e, 1) == e;
    assert Settle(e, 2) == e;
  }

  /** With nothing scheduled the car turns IDLE and drifts one floor toward its
      idle target (staying inside the building), or stays put when it has none. */
  lemma MovedWhenUnscheduled(c: Car)
    requires Valid(c) && Adjusted(c).dwell <= 0 && IsEmpty(Adjusted(c))
    ensures Moved(c).direction == Idle && IsEmpty(Moved(c))
    ensures c.idleTarget.None? ==> Moved(c).floor == c.floor
    ensures c.idleTarget.Some? && c.idleTarget.value < c.floor ==> Moved(c).floor == Max(1, c.floor - 1)
    ensures c.idleTarget.Some? && c.idleTarget.value > c.floor ==> Moved(c).floor == Min(c.numFloors, c.floor + 1)
    ensures c.idleTarget == Some(c.floor) ==> Moved(c).floor == c.floor
  {
    AdjustedFacts(c);
    var a := Adjusted(c);
    if a.idleTarget.Some? {
      AdjustedUnscheduled(Drift(a, a.idleTarget.value));
    }
  }

  /** Otherwise the car takes the direction of the head of its current queue
      and steps one floor that way (clamped to the building). */
  lemma MovedTowardNextStop(c: Car)
    requires Valid(c) && Adjusted(c).dwell <= 0 && !IsEmpty(Adjusted(c))
    ensures Adjusted(c).current != []
    ensures Adjusted(c).current[0] > 0 ==> Moved(c).floor == Min(c.numFloors, c.floor + 1)
    ensures Adjusted(c).current[0] < 0 ==> Moved(c).floor == Max(1, c.floor - 1)
  {
    AdjustedFacts(c);
    AdjustedShape(c);
    AdjustedFacts(Advance(Adjusted(c)));
  }

  // --------------------------------------------------------------- assign

  /** The first half of `assign`: an empty car commits to the direction of
      the source floor and schedules that floor. */
  function Commit(c: Car, p: Passenger): Car
    requires Ordered(c)
  {
    if IsEmpty(c) && p.sourceFloor > c.floor then c.(direction := Up, current := Push(c.current, p.sourceFloor))
    else if IsEmpty(c) && p.sourceFloor < c.floor then c.(direction := Down, current := Push(c.current, p.sourceFloor * -1))
    else c
  }

  /** The second half of `assign`: the pair (source, destination), signed by
      the passenger's direction, goes to the opposite queue when the
      directions disagree, to the trailing queue when the source is not
      ahead, and to the current queue otherwise. */
  function Enqueue(c: Car, p: Passenger): Car
    requires Ordered(c)
  {
    var src, dst := Scale(p.sourceFloor, Dir(p)), Scale(p.destinationFloor, Dir(p));
    if Scale(Value(Dir(p)), c.direction) < 0 then c.(opposite := Push(Push(c.opposite, src), dst))
    else if Scale(p.sourceFloor - c.floor, c.direction) <= 0 then c.(trailing := Push(Push(c.trailing, src), dst))
    else c.(current := Push(Push(c.current, src), dst))
  }

  /** The passenger's two stops, signed by the passenger's direction. */
  function Stops(p: Passenger): multiset<int>
  {
    multiset{Scale(p.sourceFloor, Dir(p)), Scale(p.destinationFloor, Dir(p))}
  }

  /** Two pushes add the passenger's stops to a queue. */
  lemma PushStops(s: seq<int>, p: Passenger)
    requires Sorted(s)
    ensures multiset(Push(Push(s, Scale(p.sourceFloor, Dir(p))), Scale(p.destinationFloor, Dir(p)))) == multiset(s) + Stops(p)
  {
    assert multiset{Scale(p.sourceFloor, Dir(p))} + multiset{Scale(p.destinationFloor, Dir(p))} == Stops(p);
  }

  /** `Enqueue` when the passenger travels against the car's sweep. */
  lemma EnqueueOpposite(c: Car, p: Passenger)
    requires Ordered(c) && Scale(Value(Dir(p)), c.direction) < 0
    ensures Enqueue(c, p) == c.(opposite := Push(Push(c.opposite, Scale(p.sourceFloor, Dir(p))), Scale(p.destinationFloor, Dir(p))))
  {
  }

  lemma EnqueueOppositeStops(c: Car, p: Passenger)
    requires Ordered(c) && Scale(Value(Dir(p)), c.direction) < 0
    ensures multiset(Enqueue(c, p).opposite) == multiset(c.opposite) + Stops(p)
    ensures Entries(Enqueue(c, p)) == Entries(c) + Stops(p)
  {
    EnqueueOpposite(c, p);
    PushStops(c.opposite, p);
    Regroup(multiset(c.trailing), multiset(c.opposite), multiset(c.current), Stops(p));
  }

  /** `Enqueue` when the passenger's source is not ahead of the car. */
  lemma EnqueueTrailing(c: Car, p: Passenger)
    requires Ordered(c) && Scale(Value(Dir(p)), c.direction) >= 0 && Scale(p.sourceFloor - c.floor, c.direction) <= 0
    ensures Enqueue(c, p) == c.(trailing := Push(Push(c.trailing, Scale(p.sourceFloor, Dir(p))), Scale(p.destinationFloor, Dir(p))))
  {
  }

  lemma EnqueueTrailingStops(c: Car, p: Passenger)
    requires Ordered(c) && Scale(Value(Dir(p)), c.direction) >= 0 && Scale(p.sourceFloor - c.floor, c.direction) <= 0
    ensures multiset(Enqueue(c, p).trailing) == multiset(c.trailing) + Stops(p)
    ensures Entries(Enqueue(c, p)) == Entries(c) + Stops(p)
  {
    EnqueueTrailing(c, p);
    PushStops(c.trailing, p);
    Regroup(multiset(c.trailing), multiset(c.opposite), multiset(c.current), Stops(p));
  }

  /** `Enqueue` when the passenger's source is ahead on the current sweep. */
  lemma EnqueueCurrent(c: Car, p: Passenger)
    requires Ordered(c) && Scale(Value(Dir(p)), c.direction) >= 0 && Scale(p.sourceFloor - c.floor, c.direction) > 0
    ensures Enqueue(c, p) == c.(current := Push(Push(c.current, Scale(p.sourceFloor, Dir(p))), Scale(p.destinationFloor, Dir(p))))
  {
  }

  lemma EnqueueCurrentStops(c: Car, p: Passenger)
    requires Ordered(c) && Scale(Value(Dir(p)), c.direction) >= 0 && Scale(p.sourceFloor - c.floor, c.direction) > 0
    ensures multiset(Enqueue(c, p).current) == multiset(c.current) + Stops(p)
    ensures Entries(Enqueue(c, p)) == Entries(c) + Stops(p)
  {
    EnqueueCurrent(c, p);
    PushStops(c.current, p);
    Regroup(multiset(c.trailing), multiset(c.opposite), multiset(c.current), Stops(p));
  }

  lemma AssignedIsEnqueue(c: Car, p: Passenger)
    requires Ordered(c)
    ensures Ordered(Commit(c, p)) && Assigned(c, p) == Enqueue(Commit(c, p), p)
  {
    CommitOrdered(c, p);
  }

  lemma CommitOrdered(c: Car, p: Passenger)
    requires Ordered(c)
    ensures Ordered(Commit(c, p))
  {
  }

  lemma CommitFacts(c: Car, p: Passenger)
    requires Ordered(c)
    ensures var r := Commit(c, p);
      Ordered(r)
      && r == c.(direction := r.direction, current := r.current)
      && Entries(r) == Entries(c) + (if IsEmpty(c) && p.sourceFloor != c.floor then multiset{Scale(p.sourceFloor, r.direction)} else multiset{})
      && (IsEmpty(c) && p.sourceFloor > c.floor ==> r.direction == Up && p.sourceFloor in r.current)
      && (IsEmpty(c) && p.sourceFloor < c.floor ==> r.direction == Down && -p.sourceFloor in r.current)
      && (!IsEmpty(c) || p.sourceFloor == c.floor ==> r == c)
  {
    var r := Commit(c, p);
    if IsEmpty(c) && p.sourceFloor != c.floor {
      assert r.current[0] in multiset(r.current);
    }
  }

  /** Adding `m` to one of three queues adds it to their union. */
  lemma Regroup(t: multiset<int>, o: multiset<int>, u: multiset<int>, m: multiset<int>)
    ensures t + (o + m) + u == t + o + u + m
    ensures (t + m) + o + u == t + o + u + m
    ensures t + o + (u + m) == t + o + u + m
  {
  }

  /** Enqueueing adds exactly the passenger's two signed stops to the car's
      entries, keeps every queue sorted and touches nothing but the queues. */
  lemma EnqueueFacts(c: Car, p: Passenger)
    requires Ordered(c)
    ensures var r := Enqueue(c, p);
      Ordered(r)
      && r == c.(trailing := r.trailing, opposite := r.opposite, current := r.current)
      && Entries(r) == Entries(c) + Stops(p)
  {
    if Scale(Value(Dir(p)), c.direction) < 0 {
      EnqueueOppositeStops(c, p);
    } else if Scale(p.sourceFloor - c.floor, c.direction) <= 0 {
      EnqueueTrailingStops(c, p);
    } else {
      EnqueueCurrentStops(c, p);
    }
  }

  /** `assign`: commit an empty car, then enqueue the passenger's two stops. */
  function Assigned(c: Car, p: Passenger): Car
    requires Ordered(c)
  {
    CommitFacts(c, p);
    Enqueue(Commit(c, p), p)
  }

  /** After `assign` the car is scheduled to stop at both floors in the
      passenger's direction, it is no longer empty, and neither its floor nor
      its load changed. It schedules two stops, or three when the car was
      empty and elsewhere than the source floor. */
  lemma AssignedSchedulesBothStops(c: Car, p: Passenger)
    requires Ordered(c)
    ensures var r := Assigned(c, p);
      HasTargetWithDirection(r, p.sourceFloor, Dir(p))
      && HasTargetWithDirection(r, p.destinationFloor, Dir(p))
      && !IsEmpty(r)
      && r == c.(direction := r.direction, trailing := r.trailing, opposite := r.opposite, current := r.current)
      && Ordered(r)
      && |Entries(r)| == |Entries(c)| + (if IsEmpty(c) && p.sourceFloor != c.floor then 3 else 2)
  {
    CommitFacts(c, p);
    EnqueueFacts(Commit(c, p), p);
  }

  /** An empty car heads toward the source floor: UP when it is above, DOWN
      when it is below; on the source floor its direction is left alone. */
  lemma AssignedToEmptyCar(c: Car, p: Passenger)
    requires Ordered(c) && IsEmpty(c)
    ensures p.sourceFloor > c.floor ==> Assigned(c, p).direction == Up && p.sourceFloor in Assigned(c, p).current
    ensures p.sourceFloor < c.floor ==> Assigned(c, p).direction == Down && -p.sourceFloor in Assigned(c, p).current
    ensures p.sourceFloor == c.floor ==> Assigned(c, p).direction == c.direction
  {
    CommitFacts(c, p);
    var c1 := Commit(c, p);
    EnqueueFacts(c1, p);
    var r := Enqueue(c1, p);
    if p.sourceFloor > c.floor {
      assert p.sourceFloor in multiset(c1.current);
      assert p.sourceFloor in multiset(r.current);
    } else if p.sourceFloor < c.floor {
      assert -p.sourceFloor in multiset(c1.current);
      assert -p.sourceFloor in multiset(r.current);
    }
  }

  /** On a car that already has stops, the direction is kept and the pair of
      signed stops lands in exactly one queue, chosen as the source does. */
  lemma AssignedClassification(c: Car, p: Passenger)
    requires Ordered(c) && !IsEmpty(c)
    ensures var r := Assigned(c, p);
      r.direction == c.direction
      && (Scale(Value(Dir(p)), c.direction) < 0 ==>
            multiset(r.opposite) == multiset(c.opposite) + Stops(p) && r.trailing == c.trailing && r.current == c.current)
      && (Scale(Value(Dir(p)), c.direction) >= 0 && Scale(p.sourceFloor - c.floor, c.direction) <= 0 ==>
            multiset(r.trailing) == multiset(c.trailing) + Stops(p) && r.opposite == c.opposite && r.current == c.current)
      && (Scale(Value(Dir(p)), c.direction) >= 0 && Scale(p.sourceFloor - c.floor, c.direction) > 0 ==>
            multiset(r.current) == multiset(c.current) + Stops(p) && r.trailing == c.trailing && r.opposite == c.opposite)
  {
    assert Commit(c, p) == c;
    if Scale(Value(Dir(p)), c.direction) < 0 {
      EnqueueOpposite(c, p);
      EnqueueOppositeStops(c, p);
    } else if Scale(p.sourceFloor - c.floor, c.direction) <= 0 {
      EnqueueTrailing(c, p);
      EnqueueTrailingStops(c, p);
    } else {
      EnqueueCurrent(c, p);
      EnqueueCurrentStops(c, p);
    }
  }

  // ------------------------------------------------------ embark, disembark

  /** The two outcomes of `embark`, and its exception `InvalidEmbarkRequest`. */
  datatype EmbarkResult =
    | Embarked(ok: bool)
    | InvalidEmbarkRequest(passengerId: string, passengerSourceFloor: int, currentElevatorFloor: int)

  /** `disembark` returns nothing, or raises `InvalidDisembarkRequest`. */
  datatype DisembarkResult =
    | Disembarked
    | InvalidDisembarkRequest(passengerId: string, passengerDestFloor: int, currentElevatorFloor: int)

  /** What `embark` answers: an error when the passenger is not on the car's
      floor, false when the car is full or travels the other way. */
  function EmbarkDecision(c: Car, p: Passenger): EmbarkResult
  {
    if p.sourceFloor != c.floor then InvalidEmbarkRequest(p.id, p.sourceFloor, c.floor)
    else if !CanAccommodate(c) then Embarked(false)
    else if Dir(p) != c.direction then Embarked(false)
    else Embarked(true)
  }

  /** The car after `embark`: one more passenger exactly when it accepted. */
  function Boarded(c: Car, p: Passenger): Car
  {
    if EmbarkDecision(c, p) == Embarked(true) then c.(count := c.count + 1) else c
  }

  /** An IDLE car never takes a passenger on, since a passenger is never IDLE;
      an accepting car keeps its load within capacity. */
  lemma EmbarkRules(c: Car, p: Passenger)
    ensures IsIdle(c) && p.sourceFloor == c.floor ==> EmbarkDecision(c, p) == Embarked(false)
    ensures EmbarkDecision(c, p) == Embarked(true) <==>
              p.sourceFloor == c.floor && c.count < c.maxCapacity && Dir(p) == c.direction
    ensures 0 <= c.count <= c.maxCapacity ==> 0 <= Boarded(c, p).count <= c.maxCapacity
    ensures Boarded(c, p) == c.(count := Boarded(c, p).count)
    ensures Boarded(c, p).count == c.count + (if EmbarkDecision(c, p) == Embarked(true) then 1 else 0)
  {
  }

  function DisembarkDecision(c: Car, p: Passenger): DisembarkResult
  {
    if p.destinationFloor != c.floor then InvalidDisembarkRequest(p.id, p.destinationFloor, c.floor)
    else Disembarked
  }

  /** The car after `disembark`: one passenger fewer unless it raised. */
  function Alighted(c: Car, p: Passenger): (r: Car)
    ensures r == c.(count := r.count)
    ensures r.count == (if p.destinationFloor == c.floor then c.count - 1 else c.count)
  {
    if DisembarkDecision(c, p) == Disembarked then c.(count := c.count - 1) else c
  }

  // ------------------------------------------------------- the mutable car

  /** The `Elevator` object: fields updated in place by its methods. */
  class Elevator {
    const numFloors: int
    const maxCapacity: int
    const stopTime: int
    var passengerCount: int
    var currentFloor: int
    var currentStopRemaining: int
    var direction: Direction
    var idleTarget: Option<int>
    var trailing: seq<int>
    var opposite: seq<int>
    var current: seq<int>

    function State(): Car
      reads this
    {
      Car(numFloors, maxCapacity, stopTime, currentFloor, direction, passengerCount,
          currentStopRemaining, idleTarget, trailing, opposite, current)
    }

    /** `is_empty` read off the fields: the three heaps hold no entry. */
    predicate Empty()
      reads this
      ensures Empty() <==> IsEmpty(State())
    {
      |trailing| + |opposite| + |current| == 0
    }

    constructor (numFloors: int, maxCapacity: int, stopTime: int)
      ensures State() == Car(numFloors, maxCapacity, stopTime, 1, Idle, 0, 0, None, [], [], [])
    {
      this.numFloors := numFloors;
      this.maxCapacity := maxCapacity;
      this.stopTime := stopTime;
      passengerCount := 0;
      currentFloor := 1;
      currentStopRemaining := 0;
      direction := Idle;
      idleTarget := None;
      trailing, opposite, current := [], [], [];
    }

    method AdjustTargets()
      modifies this
      ensures State() == Adjusted(old(State()))
    {
      ghost var goal := Adjusted(State());
      var round := 0;
      while round < 3
        invariant 0 <= round <= 3
        invariant round < 3 ==> Settle(State(), 3 - round) == goal
        invariant round == 3 ==> State() == goal
      {
        ghost var start := State();
        while |current| > 0 && current[0] <= Scale(currentFloor, direction)
          invariant PopReached(State()) == PopReached(start)
          decreases |current|
        {
          currentStopRemaining := stopTime;
          current := current[1..];
        }
        assert State() == PopReached(start);
        if |current| > 0 {
          break;
        }
        TurnAround();
        round := round + 1;
      }
    }

    /** The tail of one pass of `adjust_targets`, once the current sweep is
        exhausted: head on to the opposite sweep's first stop, or reverse. */
    method TurnAround()
      requires current == []
      modifies this
      ensures State() == Turn(old(State()))
    {
      var openingStop := Scale(currentFloor, Reverse(direction));
      if |opposite| > 0 {
        openingStop := Scale(opposite[0], Reverse(direction));
      }
      if Scale(openingStop - currentFloor, direction) > 0 {
        current := Push(current, Scale(openingStop, direction));
      } else {
        direction := Reverse(direction);
        trailing, opposite, current := [], trailing, opposite;
      }
    }

    method Move()
      requires Valid(State())
      modifies this
      ensures State() == Moved(old(State()))
    {
      ghost var s0 := State();
      AdjustTargets();
      if currentStopRemaining > 0 {
        MovedDwelling(s0);
        currentStopRemaining := currentStopRemaining - 1;
        return;
      }
      Travel(s0);
    }

    /** The rest of `move` once the car is settled and not dwelling: drift
        toward the idle target or step toward the next stop, then settle
        again. */
    method Travel(ghost s0: Car)
      requires Valid(s0) && State() == Adjusted(s0) && currentStopRemaining <= 0
      modifies this
      ensures State() == Moved(s0)
    {
      ghost var a := State();
      AdjustedFacts(s0);
      if IsEmpty(a) && a.idleTarget.Some? {
        MovedDrifting(s0);
      } else if !IsEmpty(a) {
        MovedAdvancing(s0);
      }
      if Empty() {
        direction := Idle;
        if idleTarget.None? {
          MovedParked(s0);
          return;
        }
        if Empty() && idleTarget.value < currentFloor {
          currentFloor := Max(1, Min(numFloors, currentFloor - 1));
        }
        if Empty() && idleTarget.value > currentFloor {
          currentFloor := Max(1, Min(numFloors, currentFloor + 1));
        }
      } else if current[0] > 0 {
        direction := Up;
      } else if current[0] < 0 {
        direction := Down;
      }
      currentFloor := Max(1, Min(numFloors, currentFloor + Value(direction)));
      if IsEmpty(a) {
        assert State() == Drift(a, a.idleTarget.value);
      } else {
        assert State() == Advance(a);
      }
      AdjustTargets();
    }

    /** `heappush` onto the current-direction heap. */
    method PushCurrent(x: int)
      requires Sorted(current)
      modifies this
      ensures State() == old(State()).(current := Push(old(current), x))
    {
      current := Push(current, x);
    }

    /** `heappush` onto the opposite-direction heap. */
    method PushOpposite(x: int)
      requires Sorted(opposite)
      modifies this
      ensures State() == old(State()).(opposite := Push(old(opposite), x))
    {
      opposite := Push(opposite, x);
    }

    /** `heappush` onto the heap of targets behind the car. */
    method PushTrailing(x: int)
      requires Sorted(trailing)
      modifies this
      ensures State() == old(State()).(trailing := Push(old(trailing), x))
    {
      trailing := Push(trailing, x);
    }

    /** `assign`: the two halves, `Commit` then `Enqueue`. */
    method Assign(p: Passenger) returns (ok: bool)
      requires Ordered(State())
      modifies this
      ensures ok
      ensures State() == Assigned(old(State()), p)
    {
      ghost var s0 := State();
      CommitOrdered(s0, p);
      CommitTo(p);
      AssignedIsEnqueue(s0, p);
      EnqueueStops(p);
      ok := true;
    }

    /** The first `if` of `assign`: an empty car heads for the source floor. */
    method CommitTo(p: Passenger)
      requires Ordered(State())
      modifies this
      ensures State() == Commit(old(State()), p)
    {
      if Empty() && p.sourceFloor > currentFloor {
        direction := Up;
        PushCurrent(p.sourceFloor);
      } else if Empty() && p.sourceFloor < currentFloor {
        direction := Down;
        PushCurrent(p.sourceFloor * -1);
      }
    }

    /** The second `if` of `assign`: push the two signed stops. */
    method EnqueueStops(p: Passenger)
      requires Ordered(State())
      modifies this
      ensures State() == Enqueue(old(State()), p)
    {
      ghost var c1 := State();
      if Scale(Value(Dir(p)), direction) < 0 {
        EnqueueOpposite(c1, p);
        PushOpposite(Scale(p.sourceFloor, Dir(p)));
        PushOpposite(Scale(p.destinationFloor, Dir(p)));
      } else if Scale(p.sourceFloor - currentFloor, direction) <= 0 {
        EnqueueTrailing(c1, p);
        PushTrailing(Scale(p.sourceFloor, Dir(p)));
        PushTrailing(Scale(p.destinationFloor, Dir(p)));
      } else {
        EnqueueCurrent(c1, p);
        PushCurrent(Scale(p.sourceFloor, Dir(p)));
        PushCurrent(Scale(p.destinationFloor, Dir(p)));
      }
    }

    method Embark(p: Passenger) returns (r: EmbarkResult)
      modifies this
      ensures r == EmbarkDecision(old(State()), p)
      ensures State() == Boarded(old(State()), p)
    {
      if p.sourceFloor != currentFloor {
        return InvalidEmbarkRequest(p.id, p.sourceFloor, currentFloor);
      }
      if !(passengerCount < maxCapacity) {
        return Embarked(false);
      }
      if Dir(p) != direction {
        return Embarked(false);
      }
      passengerCount := passengerCount + 1;
      return Embarked(true);
    }

    method Disembark(p: Passenger) returns (r: DisembarkResult)
      modifies this
      ensures r == DisembarkDecision(old(State()), p)
      ensures State() == Alighted(old(State()), p)
    {
      if p.destinationFloor != currentFloor {
        return InvalidDisembarkRequest(p.id, p.destinationFloor, currentFloor);
      }
      passengerCount := passengerCount - 1;
      return Disembarked;
    }
  }

  /** The states of a roster of elevators, in roster order (`FleetAll`
      gives each one). */
  function Fleet(es: seq<Elevator>): (r: seq<Car>)
    reads es
    ensures |r| == |es|
  {
    if es == [] then [] else Fleet(es[..|es| - 1]) + [es[|es| - 1].State()]
  }

  lemma {:induction false} FleetAll(es: seq<Elevator>)
    ensures forall i :: 0 <= i < |es| ==> Fleet(es)[i] == es[i].State()
    decreases |es|
  {
    if es != [] {
      var k := |es| - 1;
      FleetAll(es[..k]);
      assert forall i :: 0 <= i < k ==> es[..k][i] == es[i];
    }
  }

  /** `FleetAll` for one elevator. */
  lemma FleetAt(es: seq<Elevator>, i: nat)
    requires i < |es|
    ensures Fleet(es)[i] == es[i].State()
  {
    FleetAll(es);
  }
}
