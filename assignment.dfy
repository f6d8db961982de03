/** The two dispatch rules that pick an elevator for a new request
    (`strategies/assignment.py`). Both scan the roster in order, read each
    elevator and change nothing; both answer with a roster index or `None`. */
module Assignment {
  import opened Basics
  import opened Directions
  import opened Passengers
  import opened Elevators

  datatype AssignmentStrategy = ClosestEmpty | Directional

  /** Floors between a car and the passenger's source floor. */
  function Gap(p: Passenger, c: Car): (r: int)
    ensures r >= 0 && (r == 0 <==> c.floor == p.sourceFloor)
  {
    Abs(p.sourceFloor - c.floor)
  }

  /** `r` is the first of the first `n` cars, among those satisfying `ok`,
      at the least gap; `None` when none of them does. */
  predicate NearestAmong(p: Passenger, cars: seq<Car>, ok: seq<bool>, n: nat, r: Option<nat>)
    requires |ok| == |cars| && n <= |cars|
  {
    match r
    case None => forall i :: 0 <= i < n ==> !ok[i]
    case Some(k) =>
      k < n && ok[k]
      && forall i :: 0 <= i < n && ok[i] ==>
           Gap(p, cars[k]) <= Gap(p, cars[i]) && (i < k ==> Gap(p, cars[k]) < Gap(p, cars[i]))
  }

  /** The rule both strategies follow, over the whole roster. */
  predicate IsFirstNearest(p: Passenger, cars: seq<Car>, ok: seq<bool>, r: Option<nat>)
    requires |ok| == |cars|
  {
    NearestAmong(p, cars, ok, |cars|, r)
  }

  /** Looking at car `n` and keeping the earlier answer. */
  lemma NearestKeep(p: Passenger, cars: seq<Car>, ok: seq<bool>, n: nat, r: Option<nat>)
    requires |ok| == |cars| && n < |cars| && NearestAmong(p, cars, ok, n, r)
    requires !ok[n] || (r.Some? && Gap(p, cars[r.value]) <= Gap(p, cars[n]))
    ensures NearestAmong(p, cars, ok, n + 1, r)
  {
  }

  /** Looking at car `n` and taking it, because it is strictly nearer. */
  lemma NearestTake(p: Passenger, cars: seq<Car>, ok: seq<bool>, n: nat, r: Option<nat>)
    requires |ok| == |cars| && n < |cars| && NearestAmong(p, cars, ok, n, r)
    requires ok[n] && (r.None? || Gap(p, cars[n]) < Gap(p, cars[r.value]))
    ensures NearestAmong(p, cars, ok, n + 1, Some(n))
  {
  }

  /** The choice is determined: two answers meeting the rule are equal. */
  lemma FirstNearestUnique(p: Passenger, cars: seq<Car>, ok: seq<bool>, r: Option<nat>, s: Option<nat>)
    requires |ok| == |cars|
    requires IsFirstNearest(p, cars, ok, r) && IsFirstNearest(p, cars, ok, s)
    ensures r == s
  {
    if r.Some? && s.Some? {
      var a, b := r.value, s.value;
      if a < b {
        assert false;
      } else if b < a {
        assert false;
      }
    } else if r.Some? {
      assert false;
    } else if s.Some? {
      assert false;
    }
  }

  /** The same rule as a function: the scan of the first `n` cars, one at a
      time, keeping a car only when it is strictly nearer. */
  function Nearest(p: Passenger, cars: seq<Car>, ok: seq<bool>, n: nat): (r: Option<nat>)
    requires |ok| == |cars| && n <= |cars|
    ensures NearestAmong(p, cars, ok, n, r)
  {
    if n == 0 then None
    else
      var r := Nearest(p, cars, ok, n - 1);
      if ok[n - 1] && (r.None? || Gap(p, cars[n - 1]) < Gap(p, cars[r.value])) then
        NearestTake(p, cars, ok, n - 1, r);
        Some(n - 1)
      else
        NearestKeep(p, cars, ok, n - 1, r);
        r
  }

  // ------------------------------------------------------------ closest empty

  /** Which cars `ClosestEmptyStrategy` considers: the empty ones. */
  function EmptyMask(cars: seq<Car>): (r: seq<bool>)
    ensures |r| == |cars| && forall i :: 0 <= i < |cars| ==> (r[i] <==> IsEmpty(cars[i]))
  {
    seq(|cars|, i requires 0 <= i < |cars| => IsEmpty(cars[i]))
  }

  /** `ClosestEmptyStrategy.assign_elevator`: the first empty elevator at the
      least distance from the source floor, or `None` when none is empty. */
  method ClosestEmptyStrategy(p: Passenger, elevators: seq<Elevator>) returns (r: Option<nat>)
    ensures IsFirstNearest(p, Fleet(elevators), EmptyMask(Fleet(elevators)), r)
  {
    ghost var cars := Fleet(elevators);
    FleetAll(elevators);
    ghost var ok := EmptyMask(cars);
    var closest: Option<nat> := None;
    var closestDistance := 0;  // meaningful only once `closest` is set; unset stands for infinity
    var i := 0;
    while i < |elevators|
      invariant 0 <= i <= |elevators|
      invariant NearestAmong(p, cars, ok, i, closest)
      invariant closest.Some? ==> closestDistance == Gap(p, cars[closest.value])
    {
      var elevator := elevators[i];
      assert elevator.State() == cars[i];
      if elevator.Empty() {
        var distance := Abs(elevator.currentFloor - p.sourceFloor);
        if closest.None? || distance < closestDistance {
          NearestTake(p, cars, ok, i, closest);
          closestDistance := distance;
          closest := Some(i);
        } else {
          NearestKeep(p, cars, ok, i, closest);
        }
      } else {
        NearestKeep(p, cars, ok, i, closest);
      }
      i := i + 1;
    }
    r := closest;
  }

  // -------------------------------------------------------------- directional

  /** The direction of the request as seen from a car: toward the source
      floor (up when the sign is zero), or the passenger's own direction
      when the car is already on the source floor. */
  function RequestSign(p: Passenger, c: Car): (r: int)
    ensures r == 1 || r == -1
    ensures p.sourceFloor > c.floor ==> r == 1
    ensures p.sourceFloor < c.floor ==> r == -1
    ensures p.sourceFloor == c.floor ==> r == Value(Dir(p))
  {
    if p.sourceFloor == c.floor then Value(Dir(p))
    else if p.sourceFloor - c.floor >= 0 then 1
    else -1
  }

  /** Which cars `DirectionalStrategy` considers: idle or travelling the
      request's way, with room left, and nearer than `sys.maxsize`. */
  function DirectionalMask(p: Passenger, cars: seq<Car>): (r: seq<bool>)
    ensures |r| == |cars|
    ensures forall i :: 0 <= i < |cars| ==>
      (r[i] <==> (Value(cars[i].direction) == RequestSign(p, cars[i]) || IsIdle(cars[i]))
                 && CanAccommodate(cars[i]) && Gap(p, cars[i]) < MaxSize)
  {
    seq(|cars|, i requires 0 <= i < |cars| =>
      (Value(cars[i].direction) == RequestSign(p, cars[i]) || IsIdle(cars[i]))
      && CanAccommodate(cars[i]) && Gap(p, cars[i]) < MaxSize)
  }

  /** `DirectionalStrategy.assign_elevator`: the first considered elevator at
      the least distance from the source floor, or `None`. */
  method DirectionalStrategy(p: Passenger, elevators: seq<Elevator>) returns (r: Option<nat>)
    ensures IsFirstNearest(p, Fleet(elevators), DirectionalMask(p, Fleet(elevators)), r)
  {
    ghost var cars := Fleet(elevators);
    FleetAll(elevators);
    ghost var ok := DirectionalMask(p, cars);
    var minDistance := MaxSize;
    var chosen: Option<nat> := None;
    var i := 0;
    while i < |elevators|
      invariant 0 <= i <= |elevators|
      invariant NearestAmong(p, cars, ok, i, chosen)
      invariant chosen.None? ==> minDistance == MaxSize
      invariant chosen.Some? ==> minDistance == Gap(p, cars[chosen.value])
    {
      var elevator := elevators[i];
      assert elevator.State() == cars[i];
      var passengerDir := if p.sourceFloor - elevator.currentFloor >= 0 then 1 else -1;
      if p.sourceFloor == elevator.currentFloor {
        passengerDir := Value(Dir(p));
      }
      assert passengerDir == RequestSign(p, cars[i]);
      var sameDir := Value(elevator.direction) == passengerDir;
      if !sameDir && elevator.direction != Idle {
        NearestKeep(p, cars, ok, i, chosen);
        i := i + 1;
        continue;
      }
      var distance := Abs(p.sourceFloor - elevator.currentFloor);
      if elevator.passengerCount < elevator.maxCapacity && distance < minDistance {
        NearestTake(p, cars, ok, i, chosen);
        minDistance := distance;
        chosen := Some(i);
      } else {
        NearestKeep(p, cars, ok, i, chosen);
      }
      i := i + 1;
    }
    r := chosen;
  }

  // ------------------------------------------------------ worked examples

  /** Ten empty cars, car `i` on floor `10 - i`, of ten floors and capacity 1. */
  function Descending(): seq<Car>
  {
    seq(10, i => Car(10, 1, 0, 10 - i, Idle, 0, 0, None, [], [], []))
  }

  /** A request from floor 1 to floor 10. */
  function FirstToTop(): Passenger
  {
    Passenger("", 1, 10, 0)
  }

  /** Among ten empty cars the one on the passenger's floor is chosen. */
  lemma ClosestEmptyPicksNearest(r: Option<nat>)
    requires IsFirstNearest(FirstToTop(), Descending(), EmptyMask(Descending()), r)
    ensures r == Some(9)
  {
    var cars := Descending();
    assert EmptyMask(cars)[9];
    assert Gap(FirstToTop(), cars[9]) == 0;
  }

  /** A car with stops scheduled is never chosen, however near it is. The
      busy cars are those that took a request from floor 10 down to floor 1
      while on floor 1: with only car 0 empty, car 0 is chosen; with none
      empty, none is. */
  lemma ClosestEmptySkipsBusy(r: Option<nat>, s: Option<nat>)
    requires var busy := seq(10, i => Car(10, 1, 0, 10 - i, Up, 0, 0, None, [], [-10, -1], [10]));
      IsFirstNearest(FirstToTop(), [Descending()[0]] + busy[1..], EmptyMask([Descending()[0]] + busy[1..]), r)
      && IsFirstNearest(FirstToTop(), busy, EmptyMask(busy), s)
    ensures r == Some(0) && s.None?
  {
    var busy := seq(10, i => Car(10, 1, 0, 10 - i, Up, 0, 0, None, [], [-10, -1], [10]));
    var mixed := [Descending()[0]] + busy[1..];
    assert EmptyMask(mixed)[0];
    assert forall i :: 1 <= i < 10 ==> !EmptyMask(mixed)[i];
  }

  /** Ten cars going up, car `i` on floor `i + 1`: the request from floor 2
      up goes to the car on floor 2. */
  lemma DirectionalSameFloor(r: Option<nat>)
    requires var cars := seq(10, i => Car(10, 1, 0, i + 1, Up, 0, 0, None, [], [], []));
      IsFirstNearest(Passenger("", 2, 10, 0), cars, DirectionalMask(Passenger("", 2, 10, 0), cars), r)
    ensures r == Some(1)
  {
    var p := Passenger("", 2, 10, 0);
    var cars := seq(10, i => Car(10, 1, 0, i + 1, Up, 0, 0, None, [], [], []));
    assert DirectionalMask(p, cars)[1];
    assert Gap(p, cars[1]) == 0;
  }

  /** The same cars going down: the car on floor 3 is the first one coming
      toward the passenger. */
  lemma DirectionalToward(r: Option<nat>)
    requires var cars := seq(10, i => Car(10, 1, 0, i + 1, Down, 0, 0, None, [], [], []));
      IsFirstNearest(Passenger("", 2, 10, 0), cars, DirectionalMask(Passenger("", 2, 10, 0), cars), r)
    ensures r == Some(2)
  {
    var p := Passenger("", 2, 10, 0);
    var cars := seq(10, i => Car(10, 1, 0, i + 1, Down, 0, 0, None, [], [], []));
    var ok := DirectionalMask(p, cars);
    assert !ok[0] && !ok[1] && ok[2];
    assert Gap(p, cars[2]) == 1;
  }

  /** Cars all above the passenger and going up are never chosen. */
  lemma DirectionalAllAway(r: Option<nat>)
    requires var cars := seq(10, i => Car(10, 1, 0, 5, Up, 0, 0, None, [], [], []));
      IsFirstNearest(Passenger("", 2, 10, 0), cars, DirectionalMask(Passenger("", 2, 10, 0), cars), r)
    ensures r.None?
  {
    var p := Passenger("", 2, 10, 0);
    var cars := seq(10, i => Car(10, 1, 0, 5, Up, 0, 0, None, [], [], []));
  }

  // ------------------------------------------------------------ dispatch

  /** Which cars a strategy considers for a request. */
  function Mask(s: AssignmentStrategy, p: Passenger, cars: seq<Car>): (r: seq<bool>)
    ensures |r| == |cars|
  {
    match s
    case ClosestEmpty => EmptyMask(cars)
    case Directional => DirectionalMask(p, cars)
  }

  /** The index `assign_elevator` answers under strategy `s`, as a function
      of the roster's states. */
  function Dispatch(s: AssignmentStrategy, p: Passenger, cars: seq<Car>): (r: Option<nat>)
    ensures r.Some? ==> r.value < |cars|
  {
    Nearest(p, cars, Mask(s, p, cars), |cars|)
  }

  /** `Dispatch` follows the rule of its strategy. */
  lemma DispatchFollowsRule(s: AssignmentStrategy, p: Passenger, cars: seq<Car>)
    ensures IsFirstNearest(p, cars, Mask(s, p, cars), Dispatch(s, p, cars))
  {
  }

  /** Either strategy object, run on a roster, answers `Dispatch`. */
  method AssignElevator(s: AssignmentStrategy, p: Passenger, elevators: seq<Elevator>) returns (r: Option<nat>)
    ensures r == Dispatch(s, p, Fleet(elevators))
  {
    match s {
      case ClosestEmpty =>
        r := ClosestEmptyStrategy(p, elevators);
      case Directional =>
        r := DirectionalStrategy(p, elevators);
    }
    DispatchFollowsRule(s, p, Fleet(elevators));
    FirstNearestUnique(p, Fleet(elevators), Mask(s, p, Fleet(elevators)), r, Dispatch(s, p, Fleet(elevators)));
  }
}
