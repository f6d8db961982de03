/** The dispatcher (`elevator_controller.py`): per-elevator, per-floor buckets
    of waiting and riding passengers, a set of passengers still to be placed,
    two running summaries and a clock.

    The state is modelled twice: as a value `World`, on which every operation
    is a function and every property a lemma, and as the object
    `ElevatorController`, whose methods update its fields and the elevators
    in place and are proved to compute those functions. */
module Controller {
  import opened Basics
  import opened Passengers
  import opened Elevators
  import opened Summaries
  import opened Assignment
  import opened Directions
  import opened Idle

  /** One elevator's buckets: bucket `f - 1` belongs to floor `f`. */
  type Buckets = seq<seq<Passenger>>

  /** The building the controller was made for and its two policies. */
  datatype Config = Config(numFloors: int, assignment: AssignmentStrategy, idle: IdleStrategy)

  /** Everything the controller updates. */
  datatype World = World(
    cars: seq<Car>,
    waiting: seq<Buckets>,
    embarked: seq<Buckets>,
    pending: set<Passenger>,
    waitStats: Stats,
    totalStats: Stats,
    time: int)

  // -------------------------------------------------------------- invariant

  /** Both floors of the request are floors of the building. */
  predicate InBuilding(p: Passenger, n: int)
  {
    1 <= p.sourceFloor <= n && 1 <= p.destinationFloor <= n
  }

  /** Every passenger of bucket `b` waits on floor `f` for a ride inside the
      building. */
  predicate WaitOn(b: seq<Passenger>, f: int, n: int)
  {
    forall k :: 0 <= k < |b| ==> b[k].sourceFloor == f && InBuilding(b[k], n)
  }

  /** Every passenger of bucket `b` rides to floor `f`. */
  predicate RideTo(b: seq<Passenger>, f: int)
  {
    forall k :: 0 <= k < |b| ==> b[k].destinationFloor == f
  }

  predicate WaitingKeyed(rows: Buckets, n: int)
  {
    |rows| == n && forall f :: 0 <= f < n ==> WaitOn(rows[f], f + 1, n)
  }

  predicate EmbarkedKeyed(rows: Buckets, n: int)
  {
    |rows| == n && forall f :: 0 <= f < n ==> RideTo(rows[f], f + 1)
  }

  /** The number of passengers in all buckets of one elevator. */
  function Load(rows: Buckets): nat
  {
    if rows == [] then 0 else Load(rows[..|rows| - 1]) + |rows[|rows| - 1]|
  }

  /** Replacing one bucket changes the load by the difference in its size. */
  lemma {:induction false} LoadUpdate(rows: Buckets, f: nat, b: seq<Passenger>)
    requires f < |rows|
    ensures Load(rows[f := b]) == Load(rows) - |rows[f]| + |b|
    decreases |rows|
  {
    var last := |rows| - 1;
    if f == last {
      assert rows[f := b][..last] == rows[..last];
    } else {
      assert rows[f := b][..last] == rows[..last][f := b];
      LoadUpdate(rows[..last], f, b);
    }
  }

  /** The invariant of one elevator and its buckets: the car is on a floor
      of the building with ordered queues, waiting passengers sit in the
      bucket of their source floor, riders in the bucket of their destination
      floor, and the car's load is the number of riders. */
  predicate CabOk(c: Car, waiting: Buckets, embarked: Buckets)
  {
    Valid(c) && WaitingKeyed(waiting, c.numFloors) && EmbarkedKeyed(embarked, c.numFloors)
    && c.count == Load(embarked)
  }

  /** The controller's invariant. */
  predicate WorldOk(cfg: Config, w: World)
  {
    cfg.numFloors >= 1
    && |w.waiting| == |w.cars| && |w.embarked| == |w.cars|
    && (cfg.idle == EqualSpread ==> |w.cars| > 0)
    && CabsOk(cfg.numFloors, w.cars, w.waiting, w.embarked)
    && (forall p :: p in w.pending ==> InBuilding(p, cfg.numFloors))
  }

  /** Every elevator of the roster serves the `n` floors of the building and
      meets `CabOk` with its buckets. Stated from the last elevator back
      (`CabsOkAll` gives the quantified form), so that the verifier unfolds
      it only as far as a proof asks. */
  predicate CabsOk(n: int, cars: seq<Car>, waiting: seq<Buckets>, embarked: seq<Buckets>)
    requires |waiting| == |cars| && |embarked| == |cars|
    decreases |cars|
  {
    cars == []
    || (CabsOk(n, cars[..|cars| - 1], waiting[..|cars| - 1], embarked[..|cars| - 1])
        && cars[|cars| - 1].numFloors == n
        && CabOk(cars[|cars| - 1], waiting[|cars| - 1], embarked[|cars| - 1]))
  }

  lemma {:induction false} CabsOkAll(n: int, cars: seq<Car>, waiting: seq<Buckets>, embarked: seq<Buckets>)
    requires |waiting| == |cars| && |embarked| == |cars|
    ensures CabsOk(n, cars, waiting, embarked) <==>
      forall i :: 0 <= i < |cars| ==> cars[i].numFloors == n && CabOk(cars[i], waiting[i], embarked[i])
    decreases |cars|
  {
    if cars != [] {
      var k := |cars| - 1;
      CabsOkAll(n, cars[..k], waiting[..k], embarked[..k]);
    }
  }

  // ------------------------------------------------- serving one elevator

  /** What serving elevator `i` reads and writes. */
  datatype Stage = Stage(
    car: Car, waiting: Buckets, embarked: Buckets,
    pending: set<Passenger>, waitStats: Stats, totalStats: Stats)

  predicate StageOk(s: Stage)
  {
    CabOk(s.car, s.waiting, s.embarked)
    && forall p :: p in s.pending ==> InBuilding(p, s.car.numFloors)
  }

  /** Riders of the car's floor can always get off: `disembark` never raises. */
  lemma AlightNeverRaises(s: Stage, c: Car, k: nat)
    requires StageOk(s) && c.floor == s.car.floor && k < |s.embarked[s.car.floor - 1]|
    ensures DisembarkDecision(c, s.embarked[s.car.floor - 1][k]) == Disembarked
  {
  }

  /** Passengers waiting on the car's floor can always be asked:
      `embark` answers and never raises. */
  lemma BoardNeverRaises(s: Stage, c: Car, k: nat)
    requires StageOk(s) && c.floor == s.car.floor && k < |s.waiting[s.car.floor - 1]|
    ensures EmbarkDecision(c, s.waiting[s.car.floor - 1][k]).Embarked?
  {
  }

  /** One turn of the first `while` of `step`: pop the last rider of the
      car's floor, let them off and record their total time. */
  function AlightOne(s: Stage, time: int): (r: Stage)
    requires StageOk(s) && s.embarked[s.car.floor - 1] != []
    ensures StageOk(r)
    ensures r.car.floor == s.car.floor
    ensures |r.embarked[r.car.floor - 1]| == |s.embarked[s.car.floor - 1]| - 1
  {
    var f := s.car.floor - 1;
    var b := s.embarked[f];
    var p := b[|b| - 1];
    LoadUpdate(s.embarked, f, b[..|b| - 1]);
    s.(car := Alighted(s.car, p),
       embarked := s.embarked[f := b[..|b| - 1]],
       totalStats := Record(s.totalStats, time - p.requestTime))
  }

  /** The first `while` of `step`: every rider of the car's floor gets off,
      and each of them adds one total time. */
  function Alight(s: Stage, time: int): (r: Stage)
    requires StageOk(s)
    ensures StageOk(r)
    ensures r.car == s.car.(count := s.car.count - |s.embarked[s.car.floor - 1]|)
    ensures r.embarked == s.embarked[s.car.floor - 1 := []]
    ensures r.waiting == s.waiting && r.pending == s.pending && r.waitStats == s.waitStats
    ensures r.totalStats.n == s.totalStats.n + |s.embarked[s.car.floor - 1]|
    ensures r.totalStats.noActionPassengers == s.totalStats.noActionPassengers
    decreases |s.embarked[s.car.floor - 1]|
  {
    if s.embarked[s.car.floor - 1] == [] then s
    else Alight(AlightOne(s, time), time)
  }

  /** Every bucket of `rows` is a prefix of the same bucket of `more`. */
  predicate Grown(rows: Buckets, more: Buckets)
  {
    |more| == |rows| && forall g :: 0 <= g < |rows| ==> rows[g] <= more[g]
  }

  /** One turn of the second `while` of `step`: pop the last passenger waiting
      on the car's floor; if the car takes them they ride in the bucket of
      their destination and their wait is recorded, otherwise they go back
      to the pending set. */
  function BoardOne(s: Stage, time: int): (r: Stage)
    requires StageOk(s) && s.waiting[s.car.floor - 1] != []
    ensures StageOk(r)
    ensures var b := s.waiting[s.car.floor - 1]; r.waiting == s.waiting[s.car.floor - 1 := b[..|b| - 1]]
    ensures r.car == s.car.(count := r.car.count)
    ensures |r.waiting[r.car.floor - 1]| == |s.waiting[s.car.floor - 1]| - 1
    ensures r.car.count - s.car.count == r.waitStats.n - s.waitStats.n
    ensures 0 <= r.waitStats.n - s.waitStats.n <= 1
    ensures r.waitStats.noActionPassengers == s.waitStats.noActionPassengers && r.totalStats == s.totalStats
    ensures s.pending <= r.pending
    ensures var b := s.waiting[s.car.floor - 1];
      b[|b| - 1] in r.pending || b[|b| - 1] in r.embarked[b[|b| - 1].destinationFloor - 1]
  {
    var f := s.car.floor - 1;
    var b := s.waiting[f];
    var p := b[|b| - 1];
    var s1 := s.(waiting := s.waiting[f := b[..|b| - 1]]);
    if EmbarkDecision(s1.car, p) == Embarked(true) then
      var g := p.destinationFloor - 1;
      LoadUpdate(s1.embarked, g, s1.embarked[g] + [p]);
      s1.(car := Boarded(s1.car, p),
          embarked := s1.embarked[g := s1.embarked[g] + [p]],
          waitStats := Record(s1.waitStats, time - p.requestTime))
    else
      s1.(pending := s1.pending + {p})
  }

  /** The second `while` of `step`: the car's floor is left with nobody
      waiting; each passenger taken on adds one rider and one wait time,
      each one refused goes back to the pending set. */
  function Board(s: Stage, time: int): (r: Stage)
    requires StageOk(s)
    ensures StageOk(r)
    ensures r.waiting == s.waiting[s.car.floor - 1 := []]
    ensures r.car == s.car.(count := r.car.count)
    ensures r.car.count - s.car.count == r.waitStats.n - s.waitStats.n >= 0
    ensures r.waitStats.noActionPassengers == s.waitStats.noActionPassengers
    ensures r.totalStats == s.totalStats
    ensures s.pending <= r.pending
    decreases |s.waiting[s.car.floor - 1]|
  {
    if s.waiting[s.car.floor - 1] == [] then s
    else Board(BoardOne(s, time), time)
  }

  /** One boarding turn only adds riders: every bucket of the old share is a
      prefix of the same bucket of the new one. */
  lemma BoardOneGrows(s: Stage, time: int)
    requires StageOk(s) && s.waiting[s.car.floor - 1] != []
    ensures Grown(s.embarked, BoardOne(s, time).embarked)
  {
    var r := BoardOne(s, time);
    forall g | 0 <= g < |s.embarked|
      ensures s.embarked[g] <= r.embarked[g]
    {
    }
  }

  /** The second `while` only adds riders. */
  lemma {:induction false} BoardGrows(s: Stage, time: int)
    requires StageOk(s)
    ensures Grown(s.embarked, Board(s, time).embarked)
    decreases |s.waiting[s.car.floor - 1]|
  {
    if s.waiting[s.car.floor - 1] != [] {
      var s1 := BoardOne(s, time);
      BoardOneGrows(s, time);
      BoardGrows(s1, time);
      forall g | 0 <= g < |s.embarked|
        ensures s.embarked[g] <= Board(s, time).embarked[g]
      {
        assert s.embarked[g] <= s1.embarked[g] <= Board(s1, time).embarked[g];
      }
    }
  }

  /** Boarding loses nobody: each passenger who was waiting on the car's
      floor is now a rider in the bucket of their destination or pending. */
  lemma {:induction false} BoardLosesNobody(s: Stage, time: int, k: nat)
    requires StageOk(s) && k < |s.waiting[s.car.floor - 1]|
    ensures var p := s.waiting[s.car.floor - 1][k]; var r := Board(s, time);
      p in r.pending || p in r.embarked[p.destinationFloor - 1]
    decreases |s.waiting[s.car.floor - 1]|
  {
    var f := s.car.floor - 1;
    var b := s.waiting[f];
    var s1 := BoardOne(s, time);
    var r := Board(s, time);
    assert r == Board(s1, time);
    var p := b[k];
    if k == |b| - 1 {
      var g := p.destinationFloor - 1;
      BoardGrows(s1, time);
      if p !in s1.pending {
        assert s1.embarked[g] <= r.embarked[g];
      }
    } else {
      assert s1.waiting[f][k] == p;
      BoardLosesNobody(s1, time, k);
    }
  }

  /** Boarding settles each waiting passenger exactly once: one who was
      neither pending nor riding, and waits once on the car's floor, ends
      either pending or riding to their destination, never both. */
  lemma {:induction false} BoardExactlyOne(s: Stage, time: int, k: nat)
    requires StageOk(s) && k < |s.waiting[s.car.floor - 1]|
    requires var b := s.waiting[s.car.floor - 1]; var p := b[k];
      p !in s.pending && p !in s.embarked[p.destinationFloor - 1]
      && forall j :: 0 <= j < |b| && j != k ==> b[j] != p
    ensures var p := s.waiting[s.car.floor - 1][k]; var r := Board(s, time);
      (p in r.pending) != (p in r.embarked[p.destinationFloor - 1])
    decreases |s.waiting[s.car.floor - 1]|
  {
    var f := s.car.floor - 1;
    var b := s.waiting[f];
    var p := b[k];
    var g := p.destinationFloor - 1;
    var s1 := BoardOne(s, time);
    assert Board(s, time) == Board(s1, time);
    if k == |b| - 1 {
      BoardPassesOver(s1, time, p);
    } else {
      var q := b[|b| - 1];
      assert s1.waiting[f] == b[..|b| - 1] && s1.waiting[f][k] == p;
      assert q != p;
      assert s1.embarked[g] == s.embarked[g] || s1.embarked[g] == s.embarked[g] + [q];
      BoardExactlyOne(s1, time, k);
    }
  }

  /** Boarding neither pends nor seats a passenger who is not waiting on the
      car's floor. */
  lemma {:induction false} BoardPassesOver(s: Stage, time: int, p: Passenger)
    requires StageOk(s) && 1 <= p.destinationFloor <= |s.embarked|
    requires p !in s.waiting[s.car.floor - 1]
    ensures var r := Board(s, time); var g := p.destinationFloor - 1;
      (p in r.pending <==> p in s.pending) && (p in r.embarked[g] <==> p in s.embarked[g])
    decreases |s.waiting[s.car.floor - 1]|
  {
    var f := s.car.floor - 1;
    if s.waiting[f] != [] {
      var b := s.waiting[f];
      var q := b[|b| - 1];
      var g := p.destinationFloor - 1;
      var s1 := BoardOne(s, time);
      assert q != p && s1.waiting[f] == b[..|b| - 1];
      assert s1.embarked[g] == s.embarked[g] || s1.embarked[g] == s.embarked[g] + [q];
      BoardPassesOver(s1, time, p);
    }
  }

  /** Serving one elevator in `step`: riders off, waiting passengers on,
      then `move`. */
  function Serve(s: Stage, time: int): (r: Stage)
    requires StageOk(s)
    ensures StageOk(r)
  {
    var b := Board(Alight(s, time), time);
    MovedStaysInBuilding(b.car);
    b.(car := Moved(b.car))
  }

  /** Serving an elevator leaves its car's floor, as seen before it moves,
      with nobody waiting, adds one total time per rider who got off and
      loads one rider per wait time recorded. When nobody waiting there
      rides to the same floor, no rider is left in that floor's bucket
      either. */
  lemma ServeEmptiesFloor(s: Stage, time: int)
    requires StageOk(s)
    ensures var f := s.car.floor - 1; var r := Serve(s, time);
      r.waiting[f] == []
      && r.totalStats.n == s.totalStats.n + |s.embarked[f]|
      && r.waitStats.n >= s.waitStats.n
      && r.car.count == s.car.count - |s.embarked[f]| + (r.waitStats.n - s.waitStats.n)
      && (NoneRideTo(s.waiting[f], s.car.floor) ==> r.embarked[f] == [])
  {
    var f := s.car.floor - 1;
    var a := Alight(s, time);
    MovedStaysInBuilding(Board(a, time).car);
    if NoneRideTo(s.waiting[f], s.car.floor) {
      BoardKeepsFloorBucket(a, time);
    }
  }

  /** Nobody in bucket `b` rides to floor `f`. */
  predicate NoneRideTo(b: seq<Passenger>, f: int)
  {
    forall k :: 0 <= k < |b| ==> b[k].destinationFloor != f
  }

  /** A car boarding on floor `f` adds no rider to floor `f`'s bucket when
      nobody waiting there rides to `f` itself. */
  lemma {:induction false} BoardKeepsFloorBucket(s: Stage, time: int)
    requires StageOk(s)
    requires NoneRideTo(s.waiting[s.car.floor - 1], s.car.floor)
    ensures Board(s, time).embarked[s.car.floor - 1] == s.embarked[s.car.floor - 1]
    decreases |s.waiting[s.car.floor - 1]|
  {
    var f := s.car.floor - 1;
    if s.waiting[f] != [] {
      var b := s.waiting[f];
      var s1 := BoardOne(s, time);
      assert s1.waiting[f] == b[..|b| - 1];
      assert s1.embarked[f] == s.embarked[f];
      BoardKeepsFloorBucket(s1, time);
    }
  }

  // ------------------------------------------------------- the whole world

  /** Elevator `i`'s share of the world. */
  function StageOf(w: World, i: nat): Stage
    requires i < |w.cars| && i < |w.waiting| && i < |w.embarked|
  {
    Stage(w.cars[i], w.waiting[i], w.embarked[i], w.pending, w.waitStats, w.totalStats)
  }

  /** The world with elevator `i`'s share replaced. */
  function Put(w: World, i: nat, s: Stage): World
    requires i < |w.cars| && i < |w.waiting| && i < |w.embarked|
  {
    w.(cars := w.cars[i := s.car], waiting := w.waiting[i := s.waiting], embarked := w.embarked[i := s.embarked],
       pending := s.pending, waitStats := s.waitStats, totalStats := s.totalStats)
  }

  lemma StageOfOk(cfg: Config, w: World, i: nat)
    requires WorldOk(cfg, w) && i < |w.cars|
    ensures StageOk(StageOf(w, i)) && StageOf(w, i).car.numFloors == cfg.numFloors
  {
    CabsOkAll(cfg.numFloors, w.cars, w.waiting, w.embarked);
  }

  lemma PutOk(cfg: Config, w: World, i: nat, s: Stage)
    requires WorldOk(cfg, w) && i < |w.cars| && StageOk(s) && s.car.numFloors == cfg.numFloors
    ensures WorldOk(cfg, Put(w, i, s))
  {
    var r := Put(w, i, s);
    CabsOkAll(cfg.numFloors, w.cars, w.waiting, w.embarked);
    CabsOkAll(cfg.numFloors, r.cars, r.waiting, r.embarked);
  }

  /** Elevator `i`'s share of a world where it was just put back. */
  lemma StageOfPut(w: World, i: nat, s: Stage)
    requires i < |w.cars| && i < |w.waiting| && i < |w.embarked|
    ensures StageOf(Put(w, i, s), i) == s
  {
  }

  /** Putting back the share just taken changes nothing. */
  lemma PutStageOf(w: World, i: nat)
    requires i < |w.cars| && i < |w.waiting| && i < |w.embarked|
    ensures Put(w, i, StageOf(w, i)) == w
  {
    UpdateSame(w.cars, i);
    UpdateSame(w.waiting, i);
    UpdateSame(w.embarked, i);
  }

  /** Putting back a share twice keeps the second one. */
  lemma PutPut(w: World, i: nat, s: Stage, t: Stage)
    requires i < |w.cars| && i < |w.waiting| && i < |w.embarked|
    ensures Put(Put(w, i, s), i, t) == Put(w, i, t)
  {
  }

  /** Changing the car of a share just put back. */
  lemma PutCar(w: World, i: nat, s: Stage, c: Car)
    requires i < |w.cars| && i < |w.waiting| && i < |w.embarked|
    ensures Put(w, i, s).(cars := Put(w, i, s).cars[i := c]) == Put(w, i, s.(car := c))
  {
  }

  /** One turn of the first `while` of `step` for elevator `i` as the three
      updates the source makes to the whole controller: pop the last rider
      of the car's floor, `disembark` them, record their total time. */
  function AlightedAt(w: World, i: nat, time: int): World
    requires i < |w.cars| && i < |w.embarked| && 0 <= w.cars[i].floor - 1 < |w.embarked[i]|
    requires w.embarked[i][w.cars[i].floor - 1] != []
  {
    var f := w.cars[i].floor - 1; var b := w.embarked[i][f]; var p := b[|b| - 1];
    var w1 := w.(embarked := w.embarked[i := w.embarked[i][f := b[..|b| - 1]]]);
    var w2 := w1.(cars := w1.cars[i := Alighted(w1.cars[i], p)]);
    w2.(totalStats := Record(w2.totalStats, time - p.requestTime))
  }

  /** ... which is `AlightOne` on car `i`'s share, and the rider can always
      get off. */
  lemma AlightOneAt(w: World, i: nat, time: int)
    requires i < |w.cars| && i < |w.waiting| && i < |w.embarked|
    requires StageOk(StageOf(w, i)) && w.embarked[i][w.cars[i].floor - 1] != []
    ensures var f := w.cars[i].floor - 1; var b := w.embarked[i][f];
      0 <= f < |w.embarked[i]| && DisembarkDecision(w.cars[i], b[|b| - 1]) == Disembarked
    ensures Put(w, i, AlightOne(StageOf(w, i), time)) == AlightedAt(w, i, time)
  {
    AlightNeverRaises(StageOf(w, i), w.cars[i], |w.embarked[i][w.cars[i].floor - 1]| - 1);
    UpdateSame(w.waiting, i);
  }

  /** One turn of the second `while` of `step` for elevator `i` as the
      updates the source makes to the whole controller: pop the last
      passenger waiting on the car's floor, `embark` them, then either the
      rider's bucket and the wait time or the pending set. */
  function BoardedAt(w: World, i: nat, time: int): World
    requires i < |w.cars| && i < |w.waiting| && i < |w.embarked| && 0 <= w.cars[i].floor - 1 < |w.waiting[i]|
    requires var b := w.waiting[i][w.cars[i].floor - 1]; b != [] && 1 <= b[|b| - 1].destinationFloor <= |w.embarked[i]|
  {
    var f := w.cars[i].floor - 1; var b := w.waiting[i][f]; var p := b[|b| - 1];
    var g := p.destinationFloor - 1;
    var w1 := w.(waiting := w.waiting[i := w.waiting[i][f := b[..|b| - 1]]]);
    var w2 := w1.(cars := w1.cars[i := Boarded(w1.cars[i], p)]);
    if EmbarkDecision(w.cars[i], p) == Embarked(true) then
      var w3 := w2.(embarked := w2.embarked[i := w2.embarked[i][g := w2.embarked[i][g] + [p]]]);
      w3.(waitStats := Record(w3.waitStats, time - p.requestTime))
    else w2.(pending := w2.pending + {p})
  }

  /** ... which is `BoardOne` on car `i`'s share, and `embark` never raises. */
  lemma BoardOneAt(w: World, i: nat, time: int)
    requires i < |w.cars| && i < |w.waiting| && i < |w.embarked|
    requires StageOk(StageOf(w, i)) && w.waiting[i][w.cars[i].floor - 1] != []
    ensures var f := w.cars[i].floor - 1; var b := w.waiting[i][f]; var p := b[|b| - 1];
      0 <= f < |w.waiting[i]| && EmbarkDecision(w.cars[i], p).Embarked? && 1 <= p.destinationFloor <= |w.embarked[i]|
    ensures Put(w, i, BoardOne(StageOf(w, i), time)) == BoardedAt(w, i, time)
  {
    var f := w.cars[i].floor - 1;
    var b := w.waiting[i][f];
    var p := b[|b| - 1];
    BoardNeverRaises(StageOf(w, i), w.cars[i], |b| - 1);
    if EmbarkDecision(w.cars[i], p) != Embarked(true) {
      UpdateSame(w.cars, i);
      UpdateSame(w.embarked, i);
    }
  }

  /** A passenger appended to the bucket of their source floor waits there. */
  lemma WaitingAppend(rows: Buckets, n: int, p: Passenger)
    requires WaitingKeyed(rows, n) && InBuilding(p, n)
    ensures WaitingKeyed(rows[p.sourceFloor - 1 := rows[p.sourceFloor - 1] + [p]], n)
  {
    var f := p.sourceFloor - 1;
    assert WaitOn(rows[f] + [p], f + 1, n);
  }

  /** A car taking on a request: it is assigned the passenger, who waits in
      its bucket of the source floor and is no longer pending. */
  function Placed(s: Stage, p: Passenger): (r: Stage)
    requires StageOk(s) && InBuilding(p, s.car.numFloors)
    ensures StageOk(r) && r.car.numFloors == s.car.numFloors
    ensures r.embarked == s.embarked && r.waitStats == s.waitStats && r.totalStats == s.totalStats
    ensures r.car == Assigned(s.car, p) && r.pending == s.pending - {p}
    ensures r.waiting == s.waiting[p.sourceFloor - 1 := s.waiting[p.sourceFloor - 1] + [p]]
  {
    var f := p.sourceFloor - 1;
    AssignedSchedulesBothStops(s.car, p);
    WaitingAppend(s.waiting, s.car.numFloors, p);
    s.(pending := s.pending - {p},
       car := Assigned(s.car, p),
       waiting := s.waiting[f := s.waiting[f] + [p]])
  }

  /** The assigned car keeps its floor and load and stops at both floors. */
  lemma PlacedCar(s: Stage, p: Passenger)
    requires StageOk(s) && InBuilding(p, s.car.numFloors)
    ensures var r := Placed(s, p);
      r.car.floor == s.car.floor && r.car.count == s.car.count
      && HasTargetWithDirection(r.car, p.sourceFloor, Dir(p))
      && HasTargetWithDirection(r.car, p.destinationFloor, Dir(p))
  {
    AssignedSchedulesBothStops(s.car, p);
  }

  /** `request_elevator`: ask the strategy; with no car to take the
      passenger they are (still) pending, otherwise car `i` takes them on. */
  function Request(cfg: Config, w: World, p: Passenger): World
    requires WorldOk(cfg, w) && InBuilding(p, cfg.numFloors)
  {
    match Dispatch(cfg.assignment, p, w.cars)
    case None => w.(pending := w.pending + {p})
    case Some(i) =>
      StageOfOk(cfg, w, i);
      Put(w, i, Placed(StageOf(w, i), p))
  }

  /** A request keeps the invariant. */
  lemma RequestOk(cfg: Config, w: World, p: Passenger)
    requires WorldOk(cfg, w) && InBuilding(p, cfg.numFloors)
    ensures WorldOk(cfg, Request(cfg, w, p))
  {
    match Dispatch(cfg.assignment, p, w.cars)
    case None =>
    case Some(i) =>
      StageOfOk(cfg, w, i);
      PutOk(cfg, w, i, Placed(StageOf(w, i), p));
  }

  /** Which of the two branches of `request_elevator` a request takes. */
  lemma RequestBranches(cfg: Config, w: World, p: Passenger)
    requires WorldOk(cfg, w) && InBuilding(p, cfg.numFloors)
    ensures Dispatch(cfg.assignment, p, w.cars).None? ==>
      Request(cfg, w, p) == w.(pending := w.pending + {p})
    ensures Dispatch(cfg.assignment, p, w.cars).Some? ==>
      var i := Dispatch(cfg.assignment, p, w.cars).value;
      i < |w.cars| && StageOk(StageOf(w, i)) && StageOf(w, i).car.numFloors == cfg.numFloors
      && Request(cfg, w, p) == Put(w, i, Placed(StageOf(w, i), p))
  {
    match Dispatch(cfg.assignment, p, w.cars)
    case None =>
    case Some(i) => StageOfOk(cfg, w, i);
  }

  /** A request that car `i` takes, spelled out field by field. */
  lemma RequestPlaces(cfg: Config, w: World, p: Passenger, i: nat)
    requires WorldOk(cfg, w) && InBuilding(p, cfg.numFloors) && Dispatch(cfg.assignment, p, w.cars) == Some(i)
    ensures i < |w.cars| && Ordered(w.cars[i]) && |w.waiting[i]| == cfg.numFloors
    ensures var r := Request(cfg, w, p);
      r.cars == w.cars[i := Assigned(w.cars[i], p)] && r.pending == w.pending - {p}
      && r.waiting == w.waiting[i := w.waiting[i][p.sourceFloor - 1 := w.waiting[i][p.sourceFloor - 1] + [p]]]
    ensures var r := Request(cfg, w, p);
      r.embarked == w.embarked && r.waitStats == w.waitStats && r.totalStats == w.totalStats && r.time == w.time
  {
    RequestTaker(cfg, w, p, i);
    RequestTakes(cfg, w, p, i);
    RequestLeaves(cfg, w, p, i);
  }

  /** Proof step of `RequestPlaces`: the chosen car, the pending set and
      the waiting buckets. */
  lemma RequestTakes(cfg: Config, w: World, p: Passenger, i: nat)
    requires WorldOk(cfg, w) && InBuilding(p, cfg.numFloors) && Dispatch(cfg.assignment, p, w.cars) == Some(i)
    requires i < |w.cars| && Ordered(w.cars[i]) && |w.waiting[i]| == cfg.numFloors
    ensures var r := Request(cfg, w, p);
      r.cars == w.cars[i := Assigned(w.cars[i], p)] && r.pending == w.pending - {p}
      && r.waiting == w.waiting[i := w.waiting[i][p.sourceFloor - 1 := w.waiting[i][p.sourceFloor - 1] + [p]]]
  {
    StageOfOk(cfg, w, i);
    var s := StageOf(w, i);
    var t := Placed(s, p);
    assert t.car == Assigned(w.cars[i], p) && t.pending == w.pending - {p};
    assert t.waiting == w.waiting[i][p.sourceFloor - 1 := w.waiting[i][p.sourceFloor - 1] + [p]];
    assert Request(cfg, w, p) == Put(w, i, t);
  }

  /** Proof step of `RequestPlaces`: riders, summaries and clock. */
  lemma RequestLeaves(cfg: Config, w: World, p: Passenger, i: nat)
    requires WorldOk(cfg, w) && InBuilding(p, cfg.numFloors) && Dispatch(cfg.assignment, p, w.cars) == Some(i)
    requires i < |w.cars|
    ensures var r := Request(cfg, w, p);
      r.embarked == w.embarked && r.waitStats == w.waitStats && r.totalStats == w.totalStats && r.time == w.time
  {
    StageOfOk(cfg, w, i);
    UpdateSame(w.embarked, i);
  }

  /** The car the strategy picks exists and keeps its schedule ordered. */
  lemma RequestTaker(cfg: Config, w: World, p: Passenger, i: nat)
    requires WorldOk(cfg, w) && Dispatch(cfg.assignment, p, w.cars) == Some(i)
    ensures i < |w.cars| && Ordered(w.cars[i]) && |w.waiting[i]| == cfg.numFloors
  {
    StageOfOk(cfg, w, i);
  }

  lemma UpdateSame<T>(s: seq<T>, i: nat)
    requires i < |s|
    ensures s[i := s[i]] == s
  {
  }

  /** The outcome of a request: the passenger is pending exactly when the
      strategy finds no car, and then nothing else changes; otherwise only
      the chosen car and its waiting buckets change, and no rider, summary
      or the clock. */
  lemma RequestOutcome(cfg: Config, w: World, p: Passenger)
    requires WorldOk(cfg, w) && InBuilding(p, cfg.numFloors)
    ensures var r := Request(cfg, w, p);
      (p in r.pending <==> Dispatch(cfg.assignment, p, w.cars).None?)
      && r.pending - {p} == w.pending - {p}
      && |r.cars| == |w.cars| && r.embarked == w.embarked
      && r.waitStats == w.waitStats && r.totalStats == w.totalStats && r.time == w.time
      && (Dispatch(cfg.assignment, p, w.cars).None? ==> r.cars == w.cars && r.waiting == w.waiting)
  {
    RequestPending(cfg, w, p);
    RequestKeeps(cfg, w, p);
  }

  /** Proof step of `RequestOutcome`: the pending set. */
  lemma RequestPending(cfg: Config, w: World, p: Passenger)
    requires WorldOk(cfg, w) && InBuilding(p, cfg.numFloors)
    ensures var r := Request(cfg, w, p);
      (p in r.pending <==> Dispatch(cfg.assignment, p, w.cars).None?)
      && r.pending - {p} == w.pending - {p}
  {
    match Dispatch(cfg.assignment, p, w.cars)
    case None => RequestBranches(cfg, w, p);
    case Some(i) => RequestPlaces(cfg, w, p, i);
  }

  /** Proof step of `RequestOutcome`: what a request leaves alone. */
  lemma RequestKeeps(cfg: Config, w: World, p: Passenger)
    requires WorldOk(cfg, w) && InBuilding(p, cfg.numFloors)
    ensures var r := Request(cfg, w, p);
      |r.cars| == |w.cars| && r.embarked == w.embarked
      && r.waitStats == w.waitStats && r.totalStats == w.totalStats && r.time == w.time
      && (Dispatch(cfg.assignment, p, w.cars).None? ==> r.cars == w.cars && r.waiting == w.waiting)
  {
    match Dispatch(cfg.assignment, p, w.cars)
    case None => RequestBranches(cfg, w, p);
    case Some(i) => RequestPlaces(cfg, w, p, i);
  }

  /** The cars after `position_idle_elevators`. */
  function Positioned(idle: IdleStrategy, cars: seq<Car>): (r: seq<Car>)
    requires idle == EqualSpread ==> |cars| > 0
    ensures |r| == |cars|
  {
    match idle
    case MiddleFloor => seq(|cars|, i requires 0 <= i < |cars| => cars[i].(idleTarget := Some(MiddleTarget(cars[i]))))
    case EqualSpread => seq(|cars|, i requires 0 <= i < |cars| => cars[i].(idleTarget := SpreadTargets(cars)[i]))
  }

  /** The equal spread sets each car's idle target to its spread target. */
  lemma PositionedSpread(cars: seq<Car>)
    requires |cars| > 0
    ensures |Positioned(EqualSpread, cars)| == |cars|
    ensures forall j :: 0 <= j < |cars| ==>
      Positioned(EqualSpread, cars)[j] == cars[j].(idleTarget := SpreadTargets(cars)[j])
  {
  }

  /** The middle-floor strategy sets each car's idle target to its middle
      floor. */
  lemma PositionedMiddle(cars: seq<Car>)
    ensures |Positioned(MiddleFloor, cars)| == |cars|
    ensures forall j :: 0 <= j < |cars| ==>
      Positioned(MiddleFloor, cars)[j] == cars[j].(idleTarget := Some(MiddleTarget(cars[j])))
  {
  }

  /** Positioning changes idle targets only, and gives every empty car one. */
  lemma PositionedTargets(idle: IdleStrategy, cars: seq<Car>, i: nat)
    requires (idle == EqualSpread ==> |cars| > 0) && i < |cars|
    ensures Positioned(idle, cars)[i] == cars[i].(idleTarget := Positioned(idle, cars)[i].idleTarget)
    ensures IsEmpty(cars[i]) ==> Positioned(idle, cars)[i].idleTarget.Some?
  {
  }

  function Position(cfg: Config, w: World): (r: World)
    requires WorldOk(cfg, w)
    ensures WorldOk(cfg, r)
  {
    PositionOk(cfg, w);
    w.(cars := Positioned(cfg.idle, w.cars))
  }

  lemma PositionOk(cfg: Config, w: World)
    requires WorldOk(cfg, w)
    ensures WorldOk(cfg, w.(cars := Positioned(cfg.idle, w.cars)))
  {
    var cars := Positioned(cfg.idle, w.cars);
    assert forall i :: 0 <= i < |cars| ==> cars[i] == w.cars[i].(idleTarget := cars[i].idleTarget) by {
      forall i | 0 <= i < |cars| {
        PositionedTargets(cfg.idle, w.cars, i);
      }
    }
    CabsOkAll(cfg.numFloors, w.cars, w.waiting, w.embarked);
    CabsOkAll(cfg.numFloors, cars, w.waiting, w.embarked);
  }

  /** Under the invariant the two `assert`s of the equal spread hold: the
      roster is non-empty and every car serves the same floors. */
  lemma SpreadSameBuilding(cfg: Config, w: World)
    requires WorldOk(cfg, w)
    ensures cfg.idle == EqualSpread ==> SameBuilding(w.cars)
  {
    CabsOkAll(cfg.numFloors, w.cars, w.waiting, w.embarked);
  }

  /** One turn of the `for` loop of `step`: elevator `i` served. */
  function ServeAt(cfg: Config, w: World, i: nat): (r: World)
    requires WorldOk(cfg, w) && i < |w.cars|
    ensures WorldOk(cfg, r) && |r.cars| == |w.cars| && r.time == w.time
    ensures r.waitStats.noActionPassengers == w.waitStats.noActionPassengers
    ensures r.totalStats.noActionPassengers == w.totalStats.noActionPassengers
  {
    StageOfOk(cfg, w, i);
    PutOk(cfg, w, i, Serve(StageOf(w, i), w.time));
    Put(w, i, Serve(StageOf(w, i), w.time))
  }

  /** Each value of `t` is `linked` to the next, the first at index `i`. */
  ghost predicate Chained<T>(t: seq<T>, i: nat, linked: (T, nat, T) -> bool)
  {
    forall k :: 0 <= k < |t| - 1 ==> linked(t[k], i + k, t[k + 1])
  }

  /** A chain stays one when a first link is put in front. */
  lemma ChainCons<T>(x: T, t: seq<T>, i: nat, linked: (T, nat, T) -> bool)
    requires |t| >= 1 && linked(x, i, t[0]) && Chained(t, i + 1, linked)
    ensures Chained([x] + t, i, linked)
  {
    forall k | 0 <= k < |t|
      ensures linked(([x] + t)[k], i + k, ([x] + t)[k + 1])
    {
      if k > 0 {
        assert ([x] + t)[k] == t[k - 1] && ([x] + t)[k + 1] == t[k];
      }
    }
  }

  /** `b` is `a` with elevator `j` served. */
  function ServeLink(cfg: Config): (World, nat, World) -> bool
  {
    (a: World, j: nat, b: World) => WorldOk(cfg, a) && j < |a.cars| && b == ServeAt(cfg, a, j)
  }

  /** The worlds the `for` loop of `step` passes through from elevator `i`
      on: the world before each elevator is served, then the final one. */
  function ServeTrace(cfg: Config, w: World, i: nat): (r: seq<World>)
    requires WorldOk(cfg, w) && i <= |w.cars|
    ensures |r| == |w.cars| - i + 1 && r[0] == w
    ensures forall k :: 0 <= k < |r| ==>
      WorldOk(cfg, r[k]) && |r[k].cars| == |w.cars| && r[k].time == w.time
      && r[k].waitStats.noActionPassengers == w.waitStats.noActionPassengers
      && r[k].totalStats.noActionPassengers == w.totalStats.noActionPassengers
    ensures Chained(r, i, ServeLink(cfg))
    decreases |w.cars| - i
  {
    if i == |w.cars| then [w]
    else
      ServeTraceConsOk(cfg, w, i, ServeTrace(cfg, ServeAt(cfg, w, i), i + 1));
      ChainCons(w, ServeTrace(cfg, ServeAt(cfg, w, i), i + 1), i, ServeLink(cfg));
      [w] + ServeTrace(cfg, ServeAt(cfg, w, i), i + 1)
  }

  /** The facts `ServeTrace` promises of each world survive putting the
      world before elevator `i` in front of the trace from elevator `i + 1`. */
  lemma ServeTraceConsOk(cfg: Config, w: World, i: nat, t: seq<World>)
    requires WorldOk(cfg, w) && |t| == |w.cars| - i
    requires forall k :: 0 <= k < |t| ==>
      WorldOk(cfg, t[k]) && |t[k].cars| == |w.cars| && t[k].time == w.time
      && t[k].waitStats.noActionPassengers == w.waitStats.noActionPassengers
      && t[k].totalStats.noActionPassengers == w.totalStats.noActionPassengers
    ensures forall k :: 0 <= k < |t| + 1 ==>
      WorldOk(cfg, ([w] + t)[k]) && |([w] + t)[k].cars| == |w.cars| && ([w] + t)[k].time == w.time
      && ([w] + t)[k].waitStats.noActionPassengers == w.waitStats.noActionPassengers
      && ([w] + t)[k].totalStats.noActionPassengers == w.totalStats.noActionPassengers
  {
    forall k | 0 < k < |t| + 1
      ensures ([w] + t)[k] == t[k - 1]
    {
    }
  }

  /** Elevator `k` of the trace from `w` is served from the world before it. */
  lemma ServeTraceStep(cfg: Config, w: World, k: nat)
    requires WorldOk(cfg, w) && k < |w.cars|
    ensures ServeTrace(cfg, w, 0)[k + 1] == ServeAt(cfg, ServeTrace(cfg, w, 0)[k], k)
  {
    assert ServeLink(cfg)(ServeTrace(cfg, w, 0)[k], k, ServeTrace(cfg, w, 0)[k + 1]);
  }

  /** `request_elevator` for each passenger of `order`, in turn. */
  function Retry(cfg: Config, w: World, order: seq<Passenger>): (r: World)
    requires WorldOk(cfg, w) && forall k :: 0 <= k < |order| ==> InBuilding(order[k], cfg.numFloors)
    ensures WorldOk(cfg, r) && |r.cars| == |w.cars| && r.time == w.time
    ensures r.waitStats == w.waitStats && r.totalStats == w.totalStats
    decreases |order|
  {
    if order == [] then w
    else
      RetryOne(cfg, w, order[0]);
      Retry(cfg, Request(cfg, w, order[0]), order[1..])
  }

  /** One retried request keeps the invariant, the roster size, the clock
      and both summaries. */
  lemma RetryOne(cfg: Config, w: World, p: Passenger)
    requires WorldOk(cfg, w) && InBuilding(p, cfg.numFloors)
    ensures var r := Request(cfg, w, p);
      WorldOk(cfg, r) && |r.cars| == |w.cars| && r.time == w.time
      && r.waitStats == w.waitStats && r.totalStats == w.totalStats
  {
    RequestOk(cfg, w, p);
    RequestKeeps(cfg, w, p);
  }

  /** `sorted(pending, key=request_time)`: every pending passenger once, by
      request time; the order among equal request times is not fixed. */
  predicate RetryOrder(order: seq<Passenger>, s: set<Passenger>)
  {
    (forall k :: 0 <= k < |order| ==> order[k] in s)
    && (forall p :: p in s ==> p in order)
    && (forall j, k :: 0 <= j < k < |order| ==> order[j] != order[k] && order[j].requestTime <= order[k].requestTime)
  }

  /** The world after idle positioning and serving every elevator. */
  function Served(cfg: Config, w: World): (r: World)
    requires WorldOk(cfg, w)
    ensures WorldOk(cfg, r) && |r.cars| == |w.cars| && r.time == w.time
    ensures r.waitStats.noActionPassengers == w.waitStats.noActionPassengers
    ensures r.totalStats.noActionPassengers == w.totalStats.noActionPassengers
  {
    ServeTrace(cfg, Position(cfg, w), 0)[|w.cars|]
  }

  /** `step`: position idle cars; serve each elevator in roster order;
      retry the pending passengers in `order`; advance the clock by one. */
  function Stepped(cfg: Config, w: World, order: seq<Passenger>): (r: World)
    requires WorldOk(cfg, w) && RetryOrder(order, Served(cfg, w).pending)
    ensures WorldOk(cfg, r) && |r.cars| == |w.cars| && r.time == w.time + 1
    ensures r.waitStats.noActionPassengers == w.waitStats.noActionPassengers
    ensures r.totalStats.noActionPassengers == w.totalStats.noActionPassengers
  {
    Retry(cfg, Served(cfg, w), order).(time := w.time + 1)
  }

  /** `step` as its three parts: serving, retrying, then the clock. */
  lemma SteppedParts(cfg: Config, w: World, v: World, order: seq<Passenger>)
    requires WorldOk(cfg, w) && v == Served(cfg, w) && RetryOrder(order, v.pending)
    ensures Stepped(cfg, w, order) == Retry(cfg, v, order).(time := v.time + 1)
  {
  }

  // ------------------------------------------------ batches of requests

  /** A passenger whose source and destination floors are the same. */
  predicate Degenerate(p: Passenger)
  {
    p.sourceFloor == p.destinationFloor
  }

  /** The number of degenerate passengers in `batch`. */
  function Degenerates(batch: seq<Passenger>): (r: nat)
    ensures r <= |batch|
  {
    if batch == [] then 0 else (if Degenerate(batch[0]) then 1 else 0) + Degenerates(batch[1..])
  }

  /** Every passenger of `batch` can be requested: a degenerate one never is,
      any other one rides between floors of the building. */
  predicate Admissible(batch: seq<Passenger>, n: int)
  {
    forall k :: 0 <= k < |batch| ==> Degenerate(batch[k]) || InBuilding(batch[k], n)
  }

  lemma AdmissibleTail(batch: seq<Passenger>, n: int)
    requires batch != [] && Admissible(batch, n)
    ensures Admissible(batch[1..], n)
  {
    assert forall k :: 0 <= k < |batch| - 1 ==> batch[1..][k] == batch[k + 1];
  }

  /** The invariant does not constrain the summaries. */
  lemma StatsFree(cfg: Config, w: World, waitStats: Stats, totalStats: Stats)
    requires WorldOk(cfg, w)
    ensures WorldOk(cfg, w.(waitStats := waitStats, totalStats := totalStats))
  {
  }

  /** One pass of the inner `for` of `handle_passenger_requests`: a
      degenerate passenger counts as a no-action passenger in both
      summaries, any other one is requested. */
  function Admit(cfg: Config, w: World, p: Passenger): (r: World)
    requires WorldOk(cfg, w) && (Degenerate(p) || InBuilding(p, cfg.numFloors))
    ensures WorldOk(cfg, r)
  {
    if Degenerate(p) then
      StatsFree(cfg, w, NoAction(w.waitStats), NoAction(w.totalStats));
      w.(waitStats := NoAction(w.waitStats), totalStats := NoAction(w.totalStats))
    else
      RequestOk(cfg, w, p);
      Request(cfg, w, p)
  }

  /** Admitting a passenger keeps the roster and the clock, and of the
      summaries changes only the no-action counts, by one exactly when the
      passenger is degenerate. */
  lemma AdmitCounts(cfg: Config, w: World, p: Passenger)
    requires WorldOk(cfg, w) && (Degenerate(p) || InBuilding(p, cfg.numFloors))
    ensures var r, d := Admit(cfg, w, p), if Degenerate(p) then 1 else 0;
      |r.cars| == |w.cars| && r.time == w.time
      && r.waitStats == w.waitStats.(noActionPassengers := w.waitStats.noActionPassengers + d)
      && r.totalStats == w.totalStats.(noActionPassengers := w.totalStats.noActionPassengers + d)
  {
    if !Degenerate(p) {
      RequestOutcome(cfg, w, p);
    }
  }

  /** The inner `for` of `handle_passenger_requests`: every passenger of the
      batch admitted in turn. */
  function Intake(cfg: Config, w: World, batch: seq<Passenger>): (r: World)
    requires WorldOk(cfg, w) && Admissible(batch, cfg.numFloors)
    ensures WorldOk(cfg, r)
    decreases |batch|
  {
    if batch == [] then w
    else
      AdmissibleTail(batch, cfg.numFloors);
      Intake(cfg, Admit(cfg, w, batch[0]), batch[1..])
  }

  /** Intake keeps the roster and the clock, and of the summaries changes
      only the no-action counts, by one per degenerate passenger. */
  lemma {:induction false} IntakeCounts(cfg: Config, w: World, batch: seq<Passenger>)
    requires WorldOk(cfg, w) && Admissible(batch, cfg.numFloors)
    ensures var r := Intake(cfg, w, batch);
      |r.cars| == |w.cars| && r.time == w.time
      && r.waitStats == w.waitStats.(noActionPassengers := w.waitStats.noActionPassengers + Degenerates(batch))
      && r.totalStats == w.totalStats.(noActionPassengers := w.totalStats.noActionPassengers + Degenerates(batch))
    decreases |batch|
  {
    if batch != [] {
      AdmissibleTail(batch, cfg.numFloors);
      AdmitCounts(cfg, w, batch[0]);
      IntakeCounts(cfg, Admit(cfg, w, batch[0]), batch[1..]);
    }
  }

  /** A batch of degenerate passengers only raises the no-action counts:
      none of them reaches `request_elevator`. */
  lemma {:induction false} IntakeOfDegenerates(cfg: Config, w: World, batch: seq<Passenger>)
    requires WorldOk(cfg, w) && forall k :: 0 <= k < |batch| ==> Degenerate(batch[k])
    ensures Intake(cfg, w, batch) == w.(waitStats := Intake(cfg, w, batch).waitStats,
                                        totalStats := Intake(cfg, w, batch).totalStats)
    decreases |batch|
  {
    if batch != [] {
      assert forall k :: 0 <= k < |batch| - 1 ==> batch[1..][k] == batch[k + 1];
      IntakeOfDegenerates(cfg, Admit(cfg, w, batch[0]), batch[1..]);
    }
  }

  /** The total number of degenerate passengers over all `batches`. */
  function AllDegenerates(batches: seq<seq<Passenger>>): nat
  {
    if batches == [] then 0 else Degenerates(batches[0]) + AllDegenerates(batches[1..])
  }

  /** Whether `order` is a retry order `step` may use after the intake of
      `batch`. */
  predicate TickOk(cfg: Config, w: World, batch: seq<Passenger>, order: seq<Passenger>)
  {
    WorldOk(cfg, w) && Admissible(batch, cfg.numFloors)
    && RetryOrder(order, Served(cfg, Intake(cfg, w, batch)).pending)
  }

  /** One turn of the outer `for` of `handle_passenger_requests`: the intake
      of `batch`, then one `step`. */
  function Tick(cfg: Config, w: World, batch: seq<Passenger>, order: seq<Passenger>): (r: World)
    requires TickOk(cfg, w, batch, order)
    ensures WorldOk(cfg, r) && |r.cars| == |w.cars| && r.time == w.time + 1
    ensures r.waitStats.noActionPassengers == w.waitStats.noActionPassengers + Degenerates(batch)
    ensures r.totalStats.noActionPassengers == w.totalStats.noActionPassengers + Degenerates(batch)
  {
    IntakeCounts(cfg, w, batch);
    Stepped(cfg, Intake(cfg, w, batch), order)
  }

  /** Turn `k` of a run of `handle_passenger_requests` up to its drain
      loops: world `worlds[k + 1]` is `Tick` of world `worlds[k]`, batch `k`
      and retry order `k`. */
  predicate Link(cfg: Config, worlds: seq<World>, batches: seq<seq<Passenger>>, orders: seq<seq<Passenger>>, k: nat)
    requires k < |batches| && |worlds| == |batches| + 1 && |orders| == |batches|
  {
    Ticked(cfg, worlds[k], batches[k], orders[k], worlds[k + 1])
  }

  /** `v` is `w` after one turn with `batch` and retry order `order`. */
  predicate Ticked(cfg: Config, w: World, batch: seq<Passenger>, order: seq<Passenger>, v: World)
  {
    TickOk(cfg, w, batch, order) && v == Tick(cfg, w, batch, order)
  }

  /** A whole run: one `Tick` per batch, in turn, from `worlds[0]` to the last
      of `worlds`. */
  predicate Run(cfg: Config, worlds: seq<World>, batches: seq<seq<Passenger>>, orders: seq<seq<Passenger>>)
  {
    |worlds| == |batches| + 1 && |orders| == |batches|
    && forall k :: 0 <= k < |batches| ==> Link(cfg, worlds, batches, orders, k)
  }

  /** Handling runs exactly one `step` per batch, keeps the invariant, and
      counts every degenerate passenger once as a no-action passenger in
      each summary: after `n` turns, for the first `n` batches. */
  lemma {:induction false} RunCounts(cfg: Config, worlds: seq<World>, batches: seq<seq<Passenger>>, orders: seq<seq<Passenger>>, n: nat)
    requires Run(cfg, worlds, batches, orders) && WorldOk(cfg, worlds[0]) && n <= |batches|
    ensures var w, r := worlds[0], worlds[n];
      WorldOk(cfg, r) && |r.cars| == |w.cars| && r.time == w.time + n
      && r.waitStats.noActionPassengers == w.waitStats.noActionPassengers + AllDegenerates(batches[..n])
      && r.totalStats.noActionPassengers == w.totalStats.noActionPassengers + AllDegenerates(batches[..n])
  {
    if n > 0 {
      RunCounts(cfg, worlds, batches, orders, n - 1);
      assert Link(cfg, worlds, batches, orders, n - 1);
      AllDegeneratesSnoc(batches[..n - 1], batches[n - 1]);
      PrefixSnoc(batches, n);
    }
  }

  lemma PrefixSnoc<T>(s: seq<T>, n: nat)
    requires 0 < n <= |s|
    ensures s[..n - 1] + [s[n - 1]] == s[..n]
  {
  }

  lemma {:induction false} AllDegeneratesSnoc(batches: seq<seq<Passenger>>, batch: seq<Passenger>)
    ensures AllDegenerates(batches + [batch]) == AllDegenerates(batches) + Degenerates(batch)
    decreases |batches|
  {
    if batches == [] {
      assert [batch][1..] == [];
    } else {
      assert (batches + [batch])[1..] == batches[1..] + [batch];
      AllDegeneratesSnoc(batches[1..], batch);
    }
  }

  /** A run followed by one more turn is a run. */
  lemma RunExtend(cfg: Config, worlds: seq<World>, batches: seq<seq<Passenger>>, orders: seq<seq<Passenger>>,
                  batch: seq<Passenger>, order: seq<Passenger>, v: World)
    requires Run(cfg, worlds, batches, orders) && Ticked(cfg, worlds[|batches|], batch, order, v)
    ensures Run(cfg, worlds + [v], batches + [batch], orders + [order])
  {
    var ws, bs, os := worlds + [v], batches + [batch], orders + [order];
    forall k | 0 <= k < |bs|
      ensures Link(cfg, ws, bs, os, k)
    {
      if k < |batches| {
        assert Link(cfg, worlds, batches, orders, k);
        assert ws[k] == worlds[k] && ws[k + 1] == worlds[k + 1] && bs[k] == batches[k] && os[k] == orders[k];
      } else {
        assert ws[k] == worlds[|batches|] && ws[k + 1] == v && bs[k] == batch && os[k] == order;
      }
    }
  }

  // ------------------------------------------------------------- start-up

  /** A new `Elevator`: on floor 1, idle, empty, with no idle target. */
  function FreshCar(numFloors: int, maxCapacity: int, stopTime: int): Car
  {
    Car(numFloors, maxCapacity, stopTime, 1, Direction.Idle, 0, 0, None, [], [], [])
  }

  function FreshCars(k: nat, numFloors: int, maxCapacity: int, stopTime: int): (r: seq<Car>)
    ensures |r| == k
  {
    seq(k, _ => FreshCar(numFloors, maxCapacity, stopTime))
  }

  /** `k` elevators' worth of `n` empty buckets each. */
  function EmptyBuckets(k: nat, n: nat): (r: seq<Buckets>)
    ensures |r| == k && forall i :: 0 <= i < k ==> |r[i]| == n && Load(r[i]) == 0
  {
    var rows: Buckets := seq(n, _ => []);
    EmptyLoad(rows);
    seq(k, _ => rows)
  }

  lemma {:induction false} EmptyLoad(rows: Buckets)
    requires forall f :: 0 <= f < |rows| ==> rows[f] == []
    ensures Load(rows) == 0
    decreases |rows|
  {
    if rows != [] {
      EmptyLoad(rows[..|rows| - 1]);
    }
  }

  /** Python's reading of index `i` into a list of length `len`: a negative
      index counts from the end. */
  function PyIndex(i: int, len: nat): int
  {
    if i < 0 then i + len else i
  }

  /** The loop at the end of `__init__` as written: every car is put on its
      idle target. */
  function StartedAsWritten(cars: seq<Car>): (r: seq<Car>)
    requires forall i :: 0 <= i < |cars| ==> cars[i].idleTarget.Some?
    ensures |r| == |cars|
  {
    seq(|cars|, i requires 0 <= i < |cars| => cars[i].(floor := cars[i].idleTarget.value))
  }

  /** The start floor of a car: its idle target, brought into the building
      the way `move` clamps a floor. */
  function StartFloor(c: Car): (r: int)
    ensures 1 <= c.floor <= c.numFloors ==> 1 <= r <= c.numFloors
    ensures c.idleTarget.Some? && 1 <= c.idleTarget.value <= c.numFloors ==> r == c.idleTarget.value
  {
    match c.idleTarget
    case Some(t) => Clamp(c, t)
    case None => c.floor
  }

  /** The loop at the end of `__init__`, with the start floor clamped. */
  function Started(cars: seq<Car>): (r: seq<Car>)
    ensures |r| == |cars|
  {
    seq(|cars|, i requires 0 <= i < |cars| => cars[i].(floor := StartFloor(cars[i])))
  }

  /** The controller as `__init__` leaves it: `k` new elevators positioned by
      the idle strategy and started on their targets, empty buckets, nobody
      pending, empty summaries, time 0. */
  function InitialWorld(cfg: Config, k: nat, maxCapacity: int, stopTime: int): World
    requires cfg.numFloors >= 1 && (cfg.idle == EqualSpread ==> k > 0)
  {
    var n := cfg.numFloors;
    World(Started(Positioned(cfg.idle, FreshCars(k, n, maxCapacity, stopTime))),
          EmptyBuckets(k, n), EmptyBuckets(k, n), {}, Initial, Initial, 0)
  }

  /** The start-up world meets the invariant: every car is on a floor of the
      building, on its idle target whenever that target is one. */
  lemma InitialWorldOk(cfg: Config, k: nat, maxCapacity: int, stopTime: int)
    requires cfg.numFloors >= 1 && (cfg.idle == EqualSpread ==> k > 0)
    ensures var w := InitialWorld(cfg, k, maxCapacity, stopTime);
      WorldOk(cfg, w) && |w.cars| == k
      && forall i :: 0 <= i < k ==>
           IsEmpty(w.cars[i]) && w.cars[i].idleTarget.Some?
           && (1 <= w.cars[i].idleTarget.value <= cfg.numFloors ==> w.cars[i].floor == w.cars[i].idleTarget.value)
  {
    var w := InitialWorld(cfg, k, maxCapacity, stopTime);
    forall i | 0 <= i < k
      ensures w.cars[i].numFloors == cfg.numFloors && CabOk(w.cars[i], w.waiting[i], w.embarked[i])
      ensures IsEmpty(w.cars[i]) && w.cars[i].idleTarget.Some?
      ensures 1 <= w.cars[i].idleTarget.value <= cfg.numFloors ==> w.cars[i].floor == w.cars[i].idleTarget.value
    {
      InitialCarOk(cfg, k, maxCapacity, stopTime, i);
    }
    CabsOkAll(cfg.numFloors, w.cars, w.waiting, w.embarked);
  }

  /** Car `i` of the start-up world, one at a time. */
  lemma InitialCarOk(cfg: Config, k: nat, maxCapacity: int, stopTime: int, i: nat)
    requires cfg.numFloors >= 1 && (cfg.idle == EqualSpread ==> k > 0) && i < k
    ensures var w := InitialWorld(cfg, k, maxCapacity, stopTime);
      |w.cars| == k && |w.waiting| == k && |w.embarked| == k
      && w.cars[i].numFloors == cfg.numFloors && CabOk(w.cars[i], w.waiting[i], w.embarked[i])
      && IsEmpty(w.cars[i]) && w.cars[i].idleTarget.Some?
      && (1 <= w.cars[i].idleTarget.value <= cfg.numFloors ==> w.cars[i].floor == w.cars[i].idleTarget.value)
  {
    var new0 := FreshCars(k, cfg.numFloors, maxCapacity, stopTime);
    PositionedTargets(cfg.idle, new0, i);
  }

  /** As written, a car can start below the ground floor: with two floors
      and two elevators the equal spread rounds the first target, 0.5, down
      to 0, and a one-floor building's middle floor is 0. */
  lemma AsWrittenStartsOnFloorZero()
    ensures var cars := StartedAsWritten(Positioned(EqualSpread, FreshCars(2, 2, 4, 0)));
      cars[0].floor == 0 && cars[1].floor == 2
    ensures StartedAsWritten(Positioned(MiddleFloor, FreshCars(1, 1, 4, 0)))[0].floor == 0
  {
    var new0 := FreshCars(2, 2, 4, 0);
    assert EmptyBefore(new0, 0) == 0 && EmptyBefore(new0, 1) == 1 && EmptyBefore(new0, 2) == 2;
    assert RoundHalfEven(2, 4) == 0 && RoundHalfEven(6, 4) == 2;
    assert SpreadTargets(new0) == [Some(0), Some(2)];
  }

  /** ... and on floor 0 the first `step` crashes. With the cars of
      `AsWrittenStartsOnFloorZero` and the closest-empty strategy, a
      passenger `a` from floor 2 to 1 goes to car 1, already on floor 2; a
      second such passenger `b` then goes to car 0, the only empty one, and
      waits in its floor-2 bucket. `step` reads car 0's bucket at index
      0 - 1, which Python takes to be that same last bucket, pops `b` and
      calls `embark`, which raises `InvalidEmbarkRequest`. */
  lemma AsWrittenFirstStepRaises()
    ensures var cars := StartedAsWritten(Positioned(EqualSpread, FreshCars(2, 2, 4, 0)));
      var a := Passenger("a", 2, 1, 0);
      var b := Passenger("b", 2, 1, 0);
      Dispatch(ClosestEmpty, a, cars) == Some(1)
      && var cars1 := cars[1 := Assigned(cars[1], a)];
      Dispatch(ClosestEmpty, b, cars1) == Some(0)
      && var car0 := Assigned(cars1[0], b);
      car0.floor == 0 && PyIndex(car0.floor - 1, 2) == b.sourceFloor - 1
      && EmbarkDecision(car0, b) == InvalidEmbarkRequest("b", 2, 0)
  {
    AsWrittenStartsOnFloorZero();
    var cars := StartedAsWritten(Positioned(EqualSpread, FreshCars(2, 2, 4, 0)));
    var a := Passenger("a", 2, 1, 0);
    var b := Passenger("b", 2, 1, 0);
    assert Nearest(a, cars, Mask(ClosestEmpty, a, cars), 1) == Some(0);
    var cars1 := cars[1 := Assigned(cars[1], a)];
    AssignedSchedulesBothStops(cars[1], a);
    assert Nearest(b, cars1, Mask(ClosestEmpty, b, cars1), 1) == Some(0);
    AssignedSchedulesBothStops(cars1[0], b);
  }

  /** Corrected: started on the clamped target, the same cars are on floors
      1 and 2, and `WorldOk` holds from the start (`InitialWorldOk`). */
  lemma StartedOnFloorOne()
    ensures var cars := Started(Positioned(EqualSpread, FreshCars(2, 2, 4, 0)));
      cars[0].floor == 1 && cars[1].floor == 2
  {
    AsWrittenStartsOnFloorZero();
  }
}
