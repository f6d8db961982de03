/** The `ElevatorController` object of `elevator_controller.py`: its lists
    and set are fields the methods reassign, its elevators and summaries are
    objects updated in place. Every method is proved to compute the function
    of module `Controller` on the state it reads, `Snapshot()`. */
module ControllerObject {
  import opened Basics
  import opened Passengers
  import opened Elevators
  import opened Summaries
  import opened Assignment
  import opened Directions
  import opened Idle
  import opened Controller

  /** A roster whose every elevator is in state `cars[j]` has `Fleet` `cars`. */
  lemma FleetIs(es: seq<Elevator>, cars: seq<Car>)
    requires |es| == |cars| && forall j :: 0 <= j < |es| ==> es[j].State() == cars[j]
    ensures Fleet(es) == cars
  {
    FleetAll(es);
  }

  /** No elevator appears twice in the roster. Stated from the last one
      back, so that the verifier unfolds it only when asked (`UnsharedAll`
      gives the pairwise form). */
  predicate Unshared(es: seq<Elevator>)
    decreases |es|
  {
    es == [] || (Unshared(es[..|es| - 1]) && es[|es| - 1] !in es[..|es| - 1])
  }

  lemma {:induction false} UnsharedAll(es: seq<Elevator>)
    ensures Unshared(es) <==> forall i, j :: 0 <= i < j < |es| ==> es[i] != es[j]
    decreases |es|
  {
    if es != [] {
      var k := |es| - 1;
      UnsharedAll(es[..k]);
      if Unshared(es) {
        forall i, j | 0 <= i < j < |es|
          ensures es[i] != es[j]
        {
          if j == k {
            assert es[i] == es[..k][i];
          } else {
            assert es[i] == es[..k][i] && es[j] == es[..k][j];
          }
        }
      }
      if forall i, j :: 0 <= i < j < |es| ==> es[i] != es[j] {
        assert forall i, j :: 0 <= i < j < k ==> es[..k][i] != es[..k][j] by {
          forall i, j | 0 <= i < j < k
            ensures es[..k][i] != es[..k][j]
          {
            assert es[..k][i] == es[i] && es[..k][j] == es[j];
          }
        }
        assert es[k] !in es[..k] by {
          forall i | 0 <= i < k
            ensures es[..k][i] != es[k]
          {
            assert es[..k][i] == es[i];
          }
        }
      }
    }
  }

  /** Some passenger of a non-empty set has the least request time. */
  lemma {:induction false} EarliestExists(s: set<Passenger>)
    requires s != {}
    ensures exists p :: p in s && forall q :: q in s ==> p.requestTime <= q.requestTime
    decreases |s|
  {
    var x :| x in s;
    if s != {x} {
      EarliestExists(s - {x});
      var y :| y in s - {x} && forall q :: q in s - {x} ==> y.requestTime <= q.requestTime;
      if x.requestTime < y.requestTime {
        assert forall q :: q in s ==> x.requestTime <= q.requestTime;
      } else {
        assert forall q :: q in s ==> y.requestTime <= q.requestTime;
      }
    } else {
      assert forall q :: q in s ==> x.requestTime <= q.requestTime;
    }
  }

  /** `sorted(pending, key=lambda p: p.request_time)`: the passengers of `s`,
      each once, earliest request first. Python breaks ties by the set's
      iteration order, which is not modelled: any earliest one is taken. */
  method SortedByRequestTime(s: set<Passenger>) returns (order: seq<Passenger>)
    ensures RetryOrder(order, s) && |order| == |s|
  {
    var rest := s;
    order := [];
    while rest != {}
      invariant rest <= s && |order| + |rest| == |s|
      invariant forall k :: 0 <= k < |order| ==> order[k] in s && order[k] !in rest
      invariant forall p :: p in s ==> p in rest || p in order
      invariant forall j, k :: 0 <= j < k < |order| ==> order[j] != order[k] && order[j].requestTime <= order[k].requestTime
      invariant forall k, q :: 0 <= k < |order| && q in rest ==> order[k].requestTime <= q.requestTime
      decreases |rest|
    {
      EarliestExists(rest);
      var p :| p in rest && forall q :: q in rest ==> p.requestTime <= q.requestTime;
      order := order + [p];
      rest := rest - {p};
    }
  }

  class ElevatorController {
    const elevators: seq<Elevator>
    const assignmentStrategy: AssignmentStrategy
    const idleStrategy: IdleStrategy
    /** The building's floor count. The source declares `num_floors` but
        never sets it, so here it is ghost: only the contracts read it. */
    ghost const numFloors: int
    var waitingPassengers: seq<Buckets>
    var embarkedPassengers: seq<Buckets>
    var pendingPassengers: set<Passenger>
    var time: int
    const waitTimeSummary: SystemSummary
    const totalTimeSummary: SystemSummary

    ghost function Cfg(): Config
    {
      Config(numFloors, assignmentStrategy, idleStrategy)
    }

    /** The controller's state as a value. */
    function Snapshot(): World
      reads this, elevators, waitTimeSummary, totalTimeSummary
    {
      World(Fleet(elevators), waitingPassengers, embarkedPassengers, pendingPassengers,
            waitTimeSummary.State(), totalTimeSummary.State(), time)
    }

    /** The object invariant: no elevator or summary is shared, and the state
        meets `WorldOk`. */
    ghost predicate Valid()
      reads this, elevators, waitTimeSummary, totalTimeSummary
    {
      Unshared(elevators) && waitTimeSummary != totalTimeSummary
      && WorldOk(Cfg(), Snapshot())
    }

    /** `__init__`, with every car started on its idle target brought into
        the building. */
    constructor (nElevators: nat, nFloors: int, maxElevatorCapacity: int,
                 assignment: AssignmentStrategy, idle: IdleStrategy, stopTime: int)
      requires nFloors >= 1 && (idle == EqualSpread ==> nElevators > 0)
      ensures Cfg() == Config(nFloors, assignment, idle)
      ensures Snapshot() == InitialWorld(Cfg(), nElevators, maxElevatorCapacity, stopTime)
      ensures Valid()
      ensures fresh(waitTimeSummary) && fresh(totalTimeSummary)
      ensures forall j :: 0 <= j < |elevators| ==> fresh(elevators[j])
    {
      var es := NewRoster(nElevators, nFloors, maxElevatorCapacity, stopTime);
      elevators := es;
      assignmentStrategy := assignment;
      idleStrategy := idle;
      numFloors := nFloors;
      waitingPassengers := EmptyBuckets(nElevators, nFloors);
      embarkedPassengers := EmptyBuckets(nElevators, nFloors);
      pendingPassengers := {};
      time := 0;
      waitTimeSummary := new SystemSummary();
      totalTimeSummary := new SystemSummary();
      new;
      ghost var cars := FreshCars(nElevators, nFloors, maxElevatorCapacity, stopTime);
      ghost var w := Snapshot();
      assert w == World(cars, EmptyBuckets(nElevators, nFloors), EmptyBuckets(nElevators, nFloors), {}, Initial, Initial, 0);
      assert idle == EqualSpread ==> SameBuilding(cars);
      PlaceRoster();
      assert Snapshot() == w.(cars := Started(Positioned(idle, cars)));
      assert Snapshot() == InitialWorld(Cfg(), nElevators, maxElevatorCapacity, stopTime);
      InitialWorldOk(Cfg(), nElevators, maxElevatorCapacity, stopTime);
    }

    /** The `k` new elevators of `__init__`, all distinct. */
    static method NewRoster(k: nat, nFloors: int, maxElevatorCapacity: int, stopTime: int)
        returns (es: seq<Elevator>)
      ensures Unshared(es) && Fleet(es) == FreshCars(k, nFloors, maxElevatorCapacity, stopTime)
      ensures forall j :: 0 <= j < |es| ==> fresh(es[j])
    {
      es := [];
      for n := 0 to k
        invariant |es| == n
        invariant forall j :: 0 <= j < n ==> fresh(es[j]) && es[j].State() == FreshCar(nFloors, maxElevatorCapacity, stopTime)
        invariant forall i, j :: 0 <= i < j < n ==> es[i] != es[j]
      {
        var e := new Elevator(nFloors, maxElevatorCapacity, stopTime);
        es := es + [e];
      }
      UnsharedAll(es);
      FleetIs(es, FreshCars(k, nFloors, maxElevatorCapacity, stopTime));
    }

    /** The end of `__init__`: the idle strategy positions the roster, then
        every car starts on its target brought into the building. */
    method PlaceRoster()
      requires Unshared(elevators) && (idleStrategy == EqualSpread ==> SameBuilding(Fleet(elevators)))
      modifies elevators
      ensures Fleet(elevators) == Started(Positioned(idleStrategy, old(Fleet(elevators))))
    {
      Reposition();
      StartOnTargets();
    }

    /** `idle_strategy.position_idle_elevators(self.elevators)`. */
    method PositionIdle()
      requires Valid()
      modifies elevators
      ensures Snapshot() == Position(Cfg(), old(Snapshot())) && Valid()
    {
      ghost var w := Snapshot();
      SpreadSameBuilding(Cfg(), w);
      Reposition();
      assert Snapshot() == Position(Cfg(), w);
    }

    /** The idle strategy run over the roster. The equal spread's `assert`s
        hold whenever every car serves the same floors. */
    method Reposition()
      requires Unshared(elevators) && (idleStrategy == EqualSpread ==> SameBuilding(Fleet(elevators)))
      modifies elevators
      ensures Fleet(elevators) == Positioned(idleStrategy, old(Fleet(elevators)))
    {
      match idleStrategy {
        case MiddleFloor => RepositionMiddle();
        case EqualSpread => RepositionSpread();
      }
    }

    /** `MiddleFloorIdleStrategy` over the roster. */
    method RepositionMiddle()
      modifies elevators
      ensures Fleet(elevators) == Positioned(MiddleFloor, old(Fleet(elevators)))
    {
      ghost var cars := Fleet(elevators);
      FleetAll(elevators);
      PositionMiddleFloor(elevators);
      PositionedMiddle(cars);
      FleetIs(elevators, Positioned(MiddleFloor, cars));
    }

    /** `EqualSpreadIdleStrategy` over a roster of cars that serve the same
        floors: its `assert`s hold. */
    method RepositionSpread()
      requires Unshared(elevators) && SameBuilding(Fleet(elevators))
      modifies elevators
      ensures Fleet(elevators) == Positioned(EqualSpread, old(Fleet(elevators)))
    {
      ghost var cars := Fleet(elevators);
      FleetAll(elevators);
      UnsharedAll(elevators);
      var ok := PositionEqualSpread(elevators);
      PositionedSpread(cars);
      FleetIs(elevators, Positioned(EqualSpread, cars));
    }

    /** The loop at the end of `__init__`: every car that has an idle target
        goes to it, clamped into the building. */
    method StartOnTargets()
      requires Unshared(elevators)
      modifies elevators
      ensures Fleet(elevators) == Started(old(Fleet(elevators)))
    {
      UnsharedAll(elevators);
      ghost var cars := Fleet(elevators);
      FleetAll(elevators);
      for i := 0 to |elevators|
        invariant forall j :: 0 <= j < |elevators| ==>
          elevators[j].State() == (if j < i then cars[j].(floor := StartFloor(cars[j])) else cars[j])
      {
        var e := elevators[i];
        match e.idleTarget {
          case Some(t) =>
            e.currentFloor := Clamp(e.State(), t);
          case None =>
        }
      }
      FleetIs(elevators, Started(cars));
    }

    /** `request_elevator`. */
    method RequestElevator(p: Passenger)
      requires Valid() && InBuilding(p, numFloors)
      modifies this, elevators
      ensures Valid() && Snapshot() == Request(Cfg(), old(Snapshot()), p)
    {
      ghost var w := Snapshot();
      RequestOk(Cfg(), w, p);
      var index := AssignElevator(assignmentStrategy, p, elevators);
      if index.None? {
        Pend(p);
        RequestBranches(Cfg(), w, p);
        return;
      }
      var i := index.value;
      RequestPlaces(Cfg(), w, p, i);
      Unpend(p);
      AssignAt(i, p);
      WaitAt(i, p);
    }

    /** `pending_passengers.add(p)`. */
    method Pend(p: Passenger)
      modifies this
      ensures Snapshot() == old(Snapshot()).(pending := old(Snapshot()).pending + {p})
    {
      pendingPassengers := pendingPassengers + {p};
    }

    /** `pending_passengers.remove(p)` when `p` is pending. */
    method Unpend(p: Passenger)
      modifies this
      ensures Snapshot() == old(Snapshot()).(pending := old(Snapshot()).pending - {p})
    {
      if p in pendingPassengers {
        pendingPassengers := pendingPassengers - {p};
      }
    }

    /** `assert self.elevators[i].assign(p)`: the assertion holds. */
    method AssignAt(i: nat, p: Passenger)
      requires Unshared(elevators) && i < |elevators| && Ordered(Snapshot().cars[i])
      modifies elevators[i]
      ensures Snapshot() == old(Snapshot()).(cars := old(Snapshot()).cars[i := Assigned(old(Snapshot()).cars[i], p)])
    {
      ghost var cars := Fleet(elevators);
      FleetAll(elevators);
      UnsharedAll(elevators);
      var ok := elevators[i].Assign(p);
      assert ok;
      FleetIs(elevators, cars[i := elevators[i].State()]);
    }

    /** The passenger waits in car `i`'s bucket of their source floor. */
    method WaitAt(i: nat, p: Passenger)
      requires i < |waitingPassengers| && 1 <= p.sourceFloor <= |waitingPassengers[i]|
      modifies this
      ensures var w, f := old(Snapshot()), p.sourceFloor - 1;
        Snapshot() == w.(waiting := w.waiting[i := w.waiting[i][f := w.waiting[i][f] + [p]]])
    {
      var f := p.sourceFloor - 1;
      waitingPassengers := waitingPassengers[i := waitingPassengers[i][f := waitingPassengers[i][f] + [p]]];
    }

    /** `self.embarked_passengers[i][elevator.current_floor - 1].pop()`. */
    method PopRider(i: nat) returns (p: Passenger)
      requires i < |elevators|
      requires var w := Snapshot(); i < |w.embarked| && 0 <= w.cars[i].floor - 1 < |w.embarked[i]|
      requires Snapshot().embarked[i][Snapshot().cars[i].floor - 1] != []
      modifies this
      ensures var w := old(Snapshot()); var b := w.embarked[i][w.cars[i].floor - 1]; p == b[|b| - 1]
      ensures var w := old(Snapshot()); var f := w.cars[i].floor - 1; var b := w.embarked[i][f];
        Snapshot() == w.(embarked := w.embarked[i := w.embarked[i][f := b[..|b| - 1]]])
    {
      FleetAll(elevators);
      var f := elevators[i].currentFloor - 1;
      var b := embarkedPassengers[i][f];
      p := b[|b| - 1];
      embarkedPassengers := embarkedPassengers[i := embarkedPassengers[i][f := b[..|b| - 1]]];
    }

    /** `self.waiting_passengers[i][elevator.current_floor - 1].pop()`. */
    method PopWaiter(i: nat) returns (p: Passenger)
      requires i < |elevators|
      requires var w := Snapshot(); i < |w.waiting| && 0 <= w.cars[i].floor - 1 < |w.waiting[i]|
      requires Snapshot().waiting[i][Snapshot().cars[i].floor - 1] != []
      modifies this
      ensures var w := old(Snapshot()); var b := w.waiting[i][w.cars[i].floor - 1]; p == b[|b| - 1]
      ensures var w := old(Snapshot()); var f := w.cars[i].floor - 1; var b := w.waiting[i][f];
        Snapshot() == w.(waiting := w.waiting[i := w.waiting[i][f := b[..|b| - 1]]])
    {
      FleetAll(elevators);
      var f := elevators[i].currentFloor - 1;
      var b := waitingPassengers[i][f];
      p := b[|b| - 1];
      waitingPassengers := waitingPassengers[i := waitingPassengers[i][f := b[..|b| - 1]]];
    }

    /** The rider rides in car `i`'s bucket of their destination floor. */
    method AddRider(i: nat, p: Passenger)
      requires i < |Snapshot().embarked| && 1 <= p.destinationFloor <= |Snapshot().embarked[i]|
      modifies this
      ensures var w, g := old(Snapshot()), p.destinationFloor - 1;
        Snapshot() == w.(embarked := w.embarked[i := w.embarked[i][g := w.embarked[i][g] + [p]]])
    {
      var g := p.destinationFloor - 1;
      embarkedPassengers := embarkedPassengers[i := embarkedPassengers[i][g := embarkedPassengers[i][g] + [p]]];
    }

    /** `elevator.disembark(p)` on elevator `i`. */
    method DisembarkAt(i: nat, p: Passenger) returns (r: DisembarkResult)
      requires Unshared(elevators) && i < |elevators|
      modifies elevators[i]
      ensures r == DisembarkDecision(old(Snapshot()).cars[i], p)
      ensures Snapshot() == old(Snapshot()).(cars := old(Snapshot()).cars[i := Alighted(old(Snapshot()).cars[i], p)])
    {
      ghost var cars := Fleet(elevators);
      FleetAll(elevators);
      UnsharedAll(elevators);
      r := elevators[i].Disembark(p);
      FleetIs(elevators, cars[i := elevators[i].State()]);
    }

    /** `elevator.embark(p)` on elevator `i`. */
    method EmbarkAt(i: nat, p: Passenger) returns (r: EmbarkResult)
      requires Unshared(elevators) && i < |elevators|
      modifies elevators[i]
      ensures r == EmbarkDecision(old(Snapshot()).cars[i], p)
      ensures Snapshot() == old(Snapshot()).(cars := old(Snapshot()).cars[i := Boarded(old(Snapshot()).cars[i], p)])
    {
      ghost var cars := Fleet(elevators);
      FleetAll(elevators);
      UnsharedAll(elevators);
      r := elevators[i].Embark(p);
      FleetIs(elevators, cars[i := elevators[i].State()]);
    }

    /** `elevator.move()` on elevator `i`. */
    method MoveAt(i: nat)
      requires Unshared(elevators) && i < |elevators| && Elevators.Valid(Snapshot().cars[i])
      modifies elevators[i]
      ensures Snapshot() == old(Snapshot()).(cars := old(Snapshot()).cars[i := Moved(old(Snapshot()).cars[i])])
    {
      ghost var cars := Fleet(elevators);
      FleetAll(elevators);
      UnsharedAll(elevators);
      elevators[i].Move();
      FleetIs(elevators, cars[i := elevators[i].State()]);
    }

    /** `self.wait_time_summary.include(self.time - p.request_time)`. */
    method RecordWait(p: Passenger)
      requires waitTimeSummary != totalTimeSummary
      modifies waitTimeSummary
      ensures var w := old(Snapshot()); Snapshot() == w.(waitStats := Record(w.waitStats, w.time - p.requestTime))
    {
      waitTimeSummary.Include(time - p.requestTime);
    }

    /** `self.total_time_summary.include(self.time - p.request_time)`. */
    method RecordTotal(p: Passenger)
      requires waitTimeSummary != totalTimeSummary
      modifies totalTimeSummary
      ensures var w := old(Snapshot()); Snapshot() == w.(totalStats := Record(w.totalStats, w.time - p.requestTime))
    {
      totalTimeSummary.Include(time - p.requestTime);
    }

    /** `wait_time_summary.no_action()`. */
    method NoActionWait()
      requires waitTimeSummary != totalTimeSummary
      modifies waitTimeSummary
      ensures Snapshot() == old(Snapshot()).(waitStats := NoAction(old(Snapshot()).waitStats))
    {
      waitTimeSummary.NoActionPassenger();
    }

    /** `total_time_summary.no_action()`. */
    method NoActionTotal()
      requires waitTimeSummary != totalTimeSummary
      modifies totalTimeSummary
      ensures Snapshot() == old(Snapshot()).(totalStats := NoAction(old(Snapshot()).totalStats))
    {
      totalTimeSummary.NoActionPassenger();
    }

    /** `self.time += 1`. */
    method Tick()
      requires Valid()
      modifies this
      ensures Snapshot() == old(Snapshot()).(time := old(Snapshot()).time + 1)
      ensures Valid()
    {
      time := time + 1;
    }

    /** One turn of the first `while` of `step` for elevator `i`: pop the
        last rider of the car's floor, let them off and record their total
        time. */
    method AlightStep(i: nat)
      requires Unshared(elevators) && waitTimeSummary != totalTimeSummary && i < |elevators|
      requires var w := Snapshot(); i < |w.embarked| && 0 <= w.cars[i].floor - 1 < |w.embarked[i]|
      requires Snapshot().embarked[i][Snapshot().cars[i].floor - 1] != []
      modifies this, elevators[i], totalTimeSummary
      ensures Snapshot() == AlightedAt(old(Snapshot()), i, old(time))
    {
      var p := PopRider(i);
      var _ := DisembarkAt(i, p);
      RecordTotal(p);
    }

    /** `AlightStep` read as one step of the specification: car `i`'s share
        `s` of the world `w` the loop started from becomes `AlightOne(s)`. */
    method AlightTurn(i: nat, ghost w: World, ghost s: Stage) returns (ghost s': Stage)
      requires Unshared(elevators) && waitTimeSummary != totalTimeSummary && i < |elevators|
      requires i < |w.cars| && i < |w.waiting| && i < |w.embarked|
      requires StageOk(s) && s.embarked[s.car.floor - 1] != []
      requires Snapshot() == Put(w, i, s) && time == w.time
      modifies this, elevators[i], totalTimeSummary
      ensures s' == AlightOne(s, w.time) && Snapshot() == Put(w, i, s')
      ensures StageOk(s') && s'.car.floor == s.car.floor
      ensures |s'.embarked[s.car.floor - 1]| < |s.embarked[s.car.floor - 1]|
      ensures Alight(s', w.time) == Alight(s, w.time)
    {
      ghost var w0 := Snapshot();
      StageOfPut(w, i, s);
      AlightOneAt(w0, i, time);
      AlightStep(i);
      s' := AlightOne(s, w.time);
      PutPut(w, i, s, s');
    }

    /** The first `while` of `step` for elevator `i`. */
    method AlightAll(i: nat)
      requires Unshared(elevators) && waitTimeSummary != totalTimeSummary
      requires i < |elevators| && i < |waitingPassengers| && i < |embarkedPassengers|
      requires StageOk(StageOf(Snapshot(), i))
      modifies this, elevators[i], totalTimeSummary
      ensures Snapshot() == Put(old(Snapshot()), i, Alight(StageOf(old(Snapshot()), i), old(time)))
    {
      ghost var w := Snapshot();
      ghost var s := StageOf(w, i);
      PutStageOf(w, i);
      var more := AlightLeft(i, w, s);
      while more
        invariant StageOk(s) && s.car.floor == w.cars[i].floor
        invariant Snapshot() == Put(w, i, s) && time == w.time
        invariant more <==> s.embarked[s.car.floor - 1] != []
        invariant Alight(s, w.time) == Alight(StageOf(w, i), w.time)
        decreases |s.embarked[s.car.floor - 1]|
      {
        s := AlightTurn(i, w, s);
        more := AlightLeft(i, w, s);
      }
    }

    /** The test of the loop of `AlightAll`: is anyone left in the bucket of
        car `i`'s floor? */
    method AlightLeft(i: nat, ghost w: World, ghost s: Stage) returns (more: bool)
      requires i < |elevators| && i < |w.cars| && i < |w.waiting| && i < |w.embarked|
      requires StageOk(s) && s.car.floor == w.cars[i].floor && Snapshot() == Put(w, i, s)
      ensures more <==> s.embarked[s.car.floor - 1] != []
    {
      FleetAt(elevators, i);
      more := |embarkedPassengers[i][elevators[i].currentFloor - 1]| > 0;
    }

    /** One turn of the second `while` of `step` for elevator `i`: pop the
        last passenger waiting on the car's floor and ask the car to take
        them; one it takes rides in the bucket of their destination and their
        wait is recorded, one it refuses goes back to the pending set. */
    method BoardStep(i: nat)
      requires Unshared(elevators) && waitTimeSummary != totalTimeSummary && i < |elevators|
      requires var w := Snapshot(); i < |w.waiting| && i < |w.embarked| && 0 <= w.cars[i].floor - 1 < |w.waiting[i]|
      requires var w := Snapshot(); var b := w.waiting[i][w.cars[i].floor - 1];
        b != [] && EmbarkDecision(w.cars[i], b[|b| - 1]).Embarked? && 1 <= b[|b| - 1].destinationFloor <= |w.embarked[i]|
      modifies this, elevators[i], waitTimeSummary
      ensures Snapshot() == BoardedAt(old(Snapshot()), i, old(time))
    {
      var p := PopWaiter(i);
      TryBoard(i, p);
    }

    /** `elevator.embark(p)` on elevator `i` and what follows it. */
    method TryBoard(i: nat, p: Passenger)
      requires Unshared(elevators) && waitTimeSummary != totalTimeSummary && i < |elevators|
      requires var w := Snapshot(); i < |w.embarked| && 1 <= p.destinationFloor <= |w.embarked[i]|
      requires EmbarkDecision(Snapshot().cars[i], p).Embarked?
      modifies this, elevators[i], waitTimeSummary
      ensures var w := old(Snapshot());
        var g := p.destinationFloor - 1;
        var w2 := w.(cars := w.cars[i := Boarded(w.cars[i], p)]);
        Snapshot() ==
          if EmbarkDecision(w.cars[i], p) == Embarked(true) then
            var w3 := w2.(embarked := w2.embarked[i := w2.embarked[i][g := w2.embarked[i][g] + [p]]]);
            w3.(waitStats := Record(w3.waitStats, w.time - p.requestTime))
          else w2.(pending := w2.pending + {p})
    {
      var r := EmbarkAt(i, p);
      if r.ok {
        Seat(i, p);
      } else {
        Pend(p);
      }
    }

    /** A passenger the car took rides in the bucket of their destination,
        and their wait is recorded. */
    method Seat(i: nat, p: Passenger)
      requires waitTimeSummary != totalTimeSummary
      requires i < |Snapshot().embarked| && 1 <= p.destinationFloor <= |Snapshot().embarked[i]|
      modifies this, waitTimeSummary
      ensures var w, g := old(Snapshot()), p.destinationFloor - 1;
        var w3 := w.(embarked := w.embarked[i := w.embarked[i][g := w.embarked[i][g] + [p]]]);
        Snapshot() == w3.(waitStats := Record(w3.waitStats, w.time - p.requestTime))
    {
      AddRider(i, p);
      RecordWait(p);
    }

    /** `BoardStep` read as one step of the specification: car `i`'s share
        `s` of the world `w` the loop started from becomes `BoardOne(s)`. */
    method BoardTurn(i: nat, ghost w: World, ghost s: Stage) returns (ghost s': Stage)
      requires Unshared(elevators) && waitTimeSummary != totalTimeSummary && i < |elevators|
      requires i < |w.cars| && i < |w.waiting| && i < |w.embarked|
      requires StageOk(s) && s.waiting[s.car.floor - 1] != []
      requires Snapshot() == Put(w, i, s) && time == w.time
      modifies this, elevators[i], waitTimeSummary
      ensures s' == BoardOne(s, w.time) && Snapshot() == Put(w, i, s')
      ensures StageOk(s') && s'.car.floor == s.car.floor
      ensures |s'.waiting[s.car.floor - 1]| < |s.waiting[s.car.floor - 1]|
      ensures Board(s', w.time) == Board(s, w.time)
    {
      ghost var w0 := Snapshot();
      StageOfPut(w, i, s);
      BoardOneAt(w0, i, time);
      BoardStep(i);
      s' := BoardOne(s, w.time);
      PutPut(w, i, s, s');
    }

    /** The second `while` of `step` for elevator `i`. */
    method BoardAll(i: nat)
      requires Unshared(elevators) && waitTimeSummary != totalTimeSummary
      requires i < |elevators| && i < |waitingPassengers| && i < |embarkedPassengers|
      requires StageOk(StageOf(Snapshot(), i))
      modifies this, elevators[i], waitTimeSummary
      ensures Snapshot() == Put(old(Snapshot()), i, Board(StageOf(old(Snapshot()), i), old(time)))
    {
      ghost var w := Snapshot();
      ghost var s := StageOf(w, i);
      PutStageOf(w, i);
      var more := BoardLeft(i, w, s);
      while more
        invariant StageOk(s) && s.car.floor == w.cars[i].floor
        invariant Snapshot() == Put(w, i, s) && time == w.time
        invariant more <==> s.waiting[s.car.floor - 1] != []
        invariant Board(s, w.time) == Board(StageOf(w, i), w.time)
        decreases |s.waiting[s.car.floor - 1]|
      {
        s := BoardTurn(i, w, s);
        more := BoardLeft(i, w, s);
      }
    }

    /** The test of the loop of `BoardAll`: is anyone left in the bucket of
        car `i`'s floor? */
    method BoardLeft(i: nat, ghost w: World, ghost s: Stage) returns (more: bool)
      requires i < |elevators| && i < |w.cars| && i < |w.waiting| && i < |w.embarked|
      requires StageOk(s) && s.car.floor == w.cars[i].floor && Snapshot() == Put(w, i, s)
      ensures more <==> s.waiting[s.car.floor - 1] != []
    {
      FleetAt(elevators, i);
      more := |waitingPassengers[i][elevators[i].currentFloor - 1]| > 0;
    }

    /** One turn of the `for` of `step`: serve elevator `i`, then `move` it. */
    method ServeElevator(i: nat)
      requires Valid() && i < |elevators|
      modifies this, elevators[i], waitTimeSummary, totalTimeSummary
      ensures Snapshot() == ServeAt(Cfg(), old(Snapshot()), i) && Valid()
    {
      ghost var w := Snapshot();
      StageOfOk(Cfg(), w, i);
      AlightAll(i);
      ghost var a := Alight(StageOf(w, i), w.time);
      StageOfPut(w, i, a);
      BoardAll(i);
      ghost var b := Board(a, w.time);
      PutPut(w, i, a, b);
      StageOfPut(w, i, b);
      MoveAt(i);
      PutCar(w, i, b, Moved(b.car));
      assert Snapshot() == ServeAt(Cfg(), w, i);
    }

    /** `step`, but for the call to the persistence strategy. `order` is the
        order in which the pending passengers were retried. */
    method Step() returns (ghost order: seq<Passenger>)
      requires Valid()
      modifies this, elevators, waitTimeSummary, totalTimeSummary
      ensures RetryOrder(order, Served(Cfg(), old(Snapshot())).pending)
      ensures Snapshot() == Stepped(Cfg(), old(Snapshot()), order)
      ensures Valid()
    {
      ghost var w := Snapshot();
      ServeRoster();
      order := RetryThenTick(w);
    }

    /** The end of `step`: retry the pending passengers, then advance the
        clock. */
    method RetryThenTick(ghost w: World) returns (ghost order: seq<Passenger>)
      requires Valid() && WorldOk(Cfg(), w) && Snapshot() == Served(Cfg(), w)
      modifies this, elevators
      ensures RetryOrder(order, Served(Cfg(), w).pending)
      ensures Snapshot() == Stepped(Cfg(), w, order)
      ensures Valid()
    {
      ghost var v := Snapshot();
      order := RetryPending();
      Tick();
      SteppedParts(Cfg(), w, v, order);
    }

    /** The first part of `step`: idle positioning, then each elevator
        served in roster order. */
    method ServeRoster()
      requires Valid()
      modifies this, elevators, waitTimeSummary, totalTimeSummary
      ensures Snapshot() == Served(Cfg(), old(Snapshot())) && Valid()
    {
      ghost var w := Snapshot();
      PositionIdle();
      ServeAll();
      assert Snapshot() == Served(Cfg(), w);
    }

    /** The `for` loop of `step`: serve each elevator in roster order. */
    method ServeAll()
      requires Valid()
      modifies this, elevators, waitTimeSummary, totalTimeSummary
      ensures Snapshot() == ServeTrace(Cfg(), old(Snapshot()), 0)[|elevators|] && Valid()
    {
      ghost var w := Snapshot();
      var i := 0;
      while i < |elevators|
        invariant i <= |elevators|
        invariant Valid()
        invariant Snapshot() == ServeTrace(Cfg(), w, 0)[i]
      {
        ServeTurn(i, w);
        i := i + 1;
      }
    }

    /** One turn of the loop of `ServeAll`, which started from `w`: elevator
        `i` is served. */
    method ServeTurn(i: nat, ghost w: World)
      requires Valid() && WorldOk(Cfg(), w) && |w.cars| == |elevators| && i < |elevators|
      requires Snapshot() == ServeTrace(Cfg(), w, 0)[i]
      modifies this, elevators, waitTimeSummary, totalTimeSummary
      ensures Valid()
      ensures Snapshot() == ServeTrace(Cfg(), w, 0)[i + 1]
    {
      ServeTraceStep(Cfg(), w, i);
      ServeElevator(i);
    }

    /** The pending passengers requested again, earliest request first. */
    method RetryPending() returns (ghost order: seq<Passenger>)
      requires Valid()
      modifies this, elevators
      ensures RetryOrder(order, old(Snapshot()).pending)
      ensures Snapshot() == Retry(Cfg(), old(Snapshot()), order) && Valid()
    {
      ghost var w := Snapshot();
      var retry := SortedByRequestTime(pendingPassengers);
      order := retry;
      assert forall k :: 0 <= k < |retry| ==> InBuilding(retry[k], numFloors);
      ghost var goal := Retry(Cfg(), w, retry);
      var k := 0;
      while k < |retry|
        invariant k <= |retry|
        invariant Valid()
        invariant Retry(Cfg(), Snapshot(), retry[k..]) == goal
      {
        assert retry[k..][1..] == retry[k + 1..];
        RequestElevator(retry[k]);
        k := k + 1;
      }
    }

    /** The inner `for` of `handle_passenger_requests`: a passenger whose
        source and destination floors agree counts once as a no-action
        passenger in both summaries, any other one is requested. */
    method Acknowledge(batch: seq<Passenger>)
      requires Valid() && Admissible(batch, numFloors)
      modifies this, elevators, waitTimeSummary, totalTimeSummary
      ensures Valid() && Snapshot() == Intake(Cfg(), old(Snapshot()), batch)
    {
      ghost var w0 := Snapshot();
      for k := 0 to |batch|
        invariant Valid() && Admissible(batch[k..], numFloors)
        invariant Intake(Cfg(), Snapshot(), batch[k..]) == Intake(Cfg(), w0, batch)
      {
        var passenger := batch[k];
        AdmissibleTail(batch[k..], numFloors);
        assert batch[k..][1..] == batch[k + 1..];
        if passenger.sourceFloor == passenger.destinationFloor {
          NoActionWait();
          NoActionTotal();
          continue;
        }
        RequestElevator(passenger);
      }
    }

    /** `handle_passenger_requests` up to its drain loops: acknowledge each
        batch, then `step`. `worlds` are the states after each batch,
        `orders` the retry orders the steps took. */
    method HandlePassengerRequests(batches: seq<seq<Passenger>>)
        returns (ghost worlds: seq<World>, ghost orders: seq<seq<Passenger>>)
      requires Valid() && forall b :: 0 <= b < |batches| ==> Admissible(batches[b], numFloors)
      modifies this, elevators, waitTimeSummary, totalTimeSummary
      ensures Valid() && Run(Cfg(), worlds, batches, orders)
      ensures worlds[0] == old(Snapshot()) && worlds[|batches|] == Snapshot()
    {
      worlds, orders := [Snapshot()], [];
      var b := 0;
      while b < |batches|
        invariant b <= |batches| && Valid() && Run(Cfg(), worlds, batches[..b], orders)
        invariant worlds[0] == old(Snapshot()) && worlds[b] == Snapshot()
      {
        ghost var o := HandleBatch(batches[b], worlds, batches[..b], orders);
        PrefixSnoc(batches, b + 1);
        worlds, orders := worlds + [Snapshot()], orders + [o];
        b := b + 1;
      }
      assert batches[..|batches|] == batches;
    }

    /** One turn of the loop of `handle_passenger_requests`: the intake of
        `batch`, then one `step`, which extends the run by one `Tick`. */
    method HandleBatch(batch: seq<Passenger>, ghost worlds: seq<World>, ghost done: seq<seq<Passenger>>,
                       ghost orders: seq<seq<Passenger>>) returns (ghost order: seq<Passenger>)
      requires Valid() && Admissible(batch, numFloors)
      requires Run(Cfg(), worlds, done, orders) && worlds[|done|] == Snapshot()
      modifies this, elevators, waitTimeSummary, totalTimeSummary
      ensures Valid() && Run(Cfg(), worlds + [Snapshot()], done + [batch], orders + [order])
    {
      Acknowledge(batch);
      order := Step();
      assert Ticked(Cfg(), worlds[|done|], batch, order, Snapshot());
      RunExtend(Cfg(), worlds, done, orders, batch, order, Snapshot());
    }

    /** `get_stats`: the two summaries' reports. */
    method GetStats() returns (waitTime: SummaryView, totalTime: SummaryView)
      ensures waitTime == View(waitTimeSummary.State()) && totalTime == View(totalTimeSummary.State())
    {
      waitTime := View(waitTimeSummary.State());
      totalTime := View(totalTimeSummary.State());
    }
  }
}
