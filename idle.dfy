/** Where idle elevators wait (`strategies/idle.py`): every car at the middle
    floor, or the empty cars spread evenly over the building. */
module Idle {
  import opened Basics
  import opened Elevators

  datatype IdleStrategy = MiddleFloor | EqualSpread

  // ------------------------------------------------------------ rounding

  /** Python's `round` of the exact quotient `num / den`: to the nearest
      integer, ties to the even one. */
  function RoundHalfEven(num: int, den: int): (r: int)
    requires den > 0
  {
    var q, rem := num / den, num % den;
    if 2 * rem > den then q + 1
    else if 2 * rem < den then q
    else if q % 2 == 0 then q
    else q + 1
  }

  /** The rounded value is within half a unit of the quotient, and on a tie
      it is even. */
  lemma RoundHalfEvenNearest(num: int, den: int)
    requires den > 0
    ensures var r := RoundHalfEven(num, den);
      2 * Abs(r * den - num) <= den
      && (2 * Abs(r * den - num) == den ==> r % 2 == 0)
  {
    var q, rem := num / den, num % den;
    assert num == q * den + rem;
    assert (q + 1) * den == q * den + den;
  }

  /** Rounding preserves order. */
  lemma RoundHalfEvenMonotone(a: int, b: int, den: int)
    requires den > 0 && a <= b
    ensures RoundHalfEven(a, den) <= RoundHalfEven(b, den)
  {
    var qa, ra := a / den, a % den;
    var qb, rb := b / den, b % den;
    assert a == qa * den + ra && b == qb * den + rb;
    if qa > qb {
      assert qa * den >= qb * den + den by {
        assert qa >= qb + 1;
        MulLeft(den, qb + 1, qa);
      }
      assert false;
    }
  }

  lemma MulLeft(den: nat, x: int, y: int)
    requires x <= y
    ensures x * den <= y * den
  {
  }

  // ------------------------------------------------------------ middle floor

  /** `MiddleFloorIdleStrategy`: every car waits at `num_floors // 2`. */
  function MiddleTarget(c: Car): int
  {
    c.numFloors / 2
  }

  /** For ten floors, and for eleven, the middle target is floor 5. */
  lemma MiddleTargetExamples(c: Car, d: Car)
    requires c.numFloors == 10 && d.numFloors == 11
    ensures MiddleTarget(c) == 5 && MiddleTarget(d) == 5
  {
  }

  /** The middle target lies in the building once it has two floors or more;
      with a single floor it is floor 0, below the building. */
  lemma MiddleTargetRange(c: Car)
    requires c.numFloors >= 1
    ensures c.numFloors >= 2 ==> 1 <= MiddleTarget(c) <= c.numFloors
    ensures c.numFloors == 1 ==> MiddleTarget(c) == 0
  {
  }

  method PositionMiddleFloor(elevators: seq<Elevator>)
    modifies elevators
    ensures forall i :: 0 <= i < |elevators| ==>
      elevators[i].State() == old(elevators[i].State()).(idleTarget := Some(MiddleTarget(elevators[i].State())))
  {
    var i := 0;
    while i < |elevators|
      invariant 0 <= i <= |elevators|
      invariant forall j :: 0 <= j < |elevators| ==>
        elevators[j].State() == old(elevators[j].State()).(idleTarget := elevators[j].idleTarget)
      invariant forall j :: 0 <= j < i ==> elevators[j].idleTarget == Some(elevators[j].numFloors / 2)
    {
      var elevator := elevators[i];
      var middleFloor := elevator.numFloors / 2;
      elevator.idleTarget := Some(middleFloor);
      i := i + 1;
    }
  }

  // ------------------------------------------------------------ equal spread

  /** The target of the `i`-th of `k` idle cars in a building of `n` floors:
      `round((i + 0.5) * n / k)`, that is the exact quotient
      `(2i + 1) n / 2k` rounded half to even. */
  function SpreadTarget(i: int, n: int, k: int): int
    requires k > 0
  {
    RoundHalfEven((2 * i + 1) * n, 2 * k)
  }

  /** Each target is within half a floor of the middle of its share
      `[i n / k, (i + 1) n / k)` of the building. */
  lemma SpreadTargetCentred(i: int, n: int, k: int)
    requires k > 0
    ensures 2 * Abs(SpreadTarget(i, n, k) * (2 * k) - (2 * i + 1) * n) <= 2 * k
  {
    RoundHalfEvenNearest((2 * i + 1) * n, 2 * k);
  }

  /** Later idle cars never get a lower target. */
  lemma SpreadTargetMonotone(i: int, j: int, n: nat, k: int)
    requires k > 0 && i <= j
    ensures SpreadTarget(i, n, k) <= SpreadTarget(j, n, k)
  {
    MulLeft(n, 2 * i + 1, 2 * j + 1);
    RoundHalfEvenMonotone((2 * i + 1) * n, (2 * j + 1) * n, 2 * k);
  }

  /** Rounding a quotient in `[0, m)` gives a value in `[0, m]`. */
  lemma RoundHalfEvenBelow(num: int, den: int, m: int)
    requires den > 0 && 0 <= num < m * den
    ensures 0 <= RoundHalfEven(num, den) <= m
  {
    var q := num / den;
    assert q * den <= num;
    if q >= m {
      MulLeft(den, m, q);
      assert false;
    }
  }

  /** Every target lies in `[0, n]`. */
  lemma SpreadTargetRange(i: nat, n: nat, k: int)
    requires 0 <= i < k
    ensures 0 <= SpreadTarget(i, n, k) <= n
  {
    if n > 0 {
      MulLeft(n, 2 * i + 1, 2 * k - 1);
      assert (2 * k - 1) * n == n * (2 * k) - n;
      RoundHalfEvenBelow((2 * i + 1) * n, 2 * k, n);
    }
  }

  /** Five idle cars over ten floors wait at 1, 3, 5, 7, 9; over 23 floors at
      2, 7, 12, 16, 21 (11.5 rounds to the even 12). */
  lemma SpreadTargetExamples()
    ensures seq(5, i => SpreadTarget(i, 10, 5)) == [1, 3, 5, 7, 9]
    ensures seq(5, i => SpreadTarget(i, 23, 5)) == [2, 7, 12, 16, 21]
  {
  }

  /** The number of empty cars among the first `j`. */
  function EmptyBefore(cars: seq<Car>, j: nat): (r: nat)
    requires j <= |cars|
    ensures r <= j
  {
    if j == 0 then 0 else EmptyBefore(cars, j - 1) + (if IsEmpty(cars[j - 1]) then 1 else 0)
  }

  lemma {:induction false} EmptyBeforeMonotone(cars: seq<Car>, i: nat, j: nat)
    requires i <= j <= |cars|
    ensures EmptyBefore(cars, i) <= EmptyBefore(cars, j)
    ensures i < j && IsEmpty(cars[i]) ==> EmptyBefore(cars, i) < EmptyBefore(cars, j)
    decreases j
  {
    if i < j {
      EmptyBeforeMonotone(cars, i, j - 1);
    }
  }

  /** Two empty cars with as many empty cars before them are the same car. */
  lemma RankUnique(cars: seq<Car>, i: nat, j: nat)
    requires i < |cars| && j < |cars| && IsEmpty(cars[i]) && IsEmpty(cars[j])
    requires EmptyBefore(cars, i) == EmptyBefore(cars, j)
    ensures i == j
  {
    if i < j {
      EmptyBeforeMonotone(cars, i, j);
    } else if j < i {
      EmptyBeforeMonotone(cars, j, i);
    }
  }

  /** The new idle targets `EqualSpreadIdleStrategy` gives a roster: the
      `r`-th empty car of the `k` empty ones gets `SpreadTarget(r, n, k)`;
      the others keep theirs. */
  function SpreadTargets(cars: seq<Car>): (r: seq<Option<int>>)
    requires |cars| > 0
    ensures |r| == |cars|
  {
    var k := EmptyBefore(cars, |cars|);
    seq(|cars|, j requires 0 <= j < |cars| =>
      if IsEmpty(cars[j]) then
        EmptyBeforeMonotone(cars, j, |cars|);
        Some(SpreadTarget(EmptyBefore(cars, j), cars[0].numFloors, k))
      else cars[j].idleTarget)
  }

  /** Every new target is a floor between 0 and the top floor, and they do
      not decrease along the roster. */
  lemma SpreadTargetsOrdered(cars: seq<Car>, i: nat, j: nat)
    requires |cars| > 0 && cars[0].numFloors >= 0
    requires i < j < |cars| && IsEmpty(cars[i]) && IsEmpty(cars[j])
    ensures var t := SpreadTargets(cars);
      t[i].Some? && t[j].Some? && t[i].value <= t[j].value
      && 0 <= t[i].value <= cars[0].numFloors && 0 <= t[j].value <= cars[0].numFloors
  {
    var k := EmptyBefore(cars, |cars|);
    EmptyBeforeMonotone(cars, i, j);
    EmptyBeforeMonotone(cars, j, |cars|);
    SpreadTargetMonotone(EmptyBefore(cars, i), EmptyBefore(cars, j), cars[0].numFloors, k);
    SpreadTargetRange(EmptyBefore(cars, i), cars[0].numFloors, k);
    SpreadTargetRange(EmptyBefore(cars, j), cars[0].numFloors, k);
  }

  /** What the strategy checks before it positions anything: a non-empty
      roster whose cars all serve the same number of floors. */
  predicate SameBuilding(cars: seq<Car>)
  {
    |cars| > 0 && forall i :: 0 <= i < |cars| ==> cars[i].numFloors == cars[0].numFloors
  }

  /** The strategy's two `assert`s, as a test. */
  method CheckSameBuilding(elevators: seq<Elevator>) returns (ok: bool)
    ensures ok <==> SameBuilding(Fleet(elevators))
  {
    ghost var cars := Fleet(elevators);
    FleetAll(elevators);
    if |elevators| == 0 {
      return false;
    }
    var j := 0;
    while j < |elevators|
      invariant 0 <= j <= |elevators|
      invariant forall i :: 0 <= i < j ==> cars[i].numFloors == cars[0].numFloors
    {
      if elevators[j].numFloors != elevators[0].numFloors {
        return false;
      }
      j := j + 1;
    }
    return true;
  }

  /** `[e for e in elevators if e.is_empty()]`: the empty elevators in roster
      order; the `r`-th of them sits at roster position `pos[r]`, with `r`
      empty cars before it. */
  method EmptyElevators(elevators: seq<Elevator>) returns (idle: seq<Elevator>, ghost pos: seq<nat>)
    ensures |idle| == |pos| == EmptyBefore(Fleet(elevators), |elevators|)
    ensures forall r :: 0 <= r < |pos| ==>
      pos[r] < |elevators| && idle[r] == elevators[pos[r]]
      && IsEmpty(Fleet(elevators)[pos[r]]) && EmptyBefore(Fleet(elevators), pos[r]) == r
  {
    ghost var cars := Fleet(elevators);
    FleetAll(elevators);
    idle, pos := [], [];
    var j := 0;
    while j < |elevators|
      invariant 0 <= j <= |elevators|
      invariant |idle| == |pos| == EmptyBefore(cars, j)
      invariant forall r :: 0 <= r < |pos| ==>
        pos[r] < j && idle[r] == elevators[pos[r]] && IsEmpty(cars[pos[r]]) && EmptyBefore(cars, pos[r]) == r
    {
      if elevators[j].Empty() {
        idle, pos := idle + [elevators[j]], pos + [j];
      }
      j := j + 1;
    }
  }

  /** Car `i` once the first `r` empty cars have their new targets. */
  function SpreadSoFar(cars: seq<Car>, i: nat, r: nat): Car
    requires i < |cars|
  {
    var k := EmptyBefore(cars, |cars|);
    if IsEmpty(cars[i]) && EmptyBefore(cars, i) < r && k > 0
    then cars[i].(idleTarget := Some(SpreadTarget(EmptyBefore(cars, i), cars[0].numFloors, k)))
    else cars[i]
  }

  /** Giving the `r`-th empty car its target leaves every other car as it was. */
  lemma SpreadSoFarOther(cars: seq<Car>, i: nat, r: nat)
    requires i < |cars| && !(IsEmpty(cars[i]) && EmptyBefore(cars, i) == r)
    ensures SpreadSoFar(cars, i, r + 1) == SpreadSoFar(cars, i, r)
  {
  }

  /** Once all `k` empty cars have their targets, the roster carries
      `SpreadTargets`. */
  lemma SpreadSoFarDone(cars: seq<Car>)
    requires |cars| > 0
    ensures forall i :: 0 <= i < |cars| ==>
      SpreadSoFar(cars, i, EmptyBefore(cars, |cars|)) == cars[i].(idleTarget := SpreadTargets(cars)[i])
  {
    forall i | 0 <= i < |cars| && IsEmpty(cars[i])
      ensures EmptyBefore(cars, i) < EmptyBefore(cars, |cars|)
    {
      EmptyBeforeMonotone(cars, i, |cars|);
    }
  }

  /** `EqualSpreadIdleStrategy.position_idle_elevators`. Its two `assert`s
      become the result: `false`, with nothing changed, where Python raises
      `AssertionError`. */
  method PositionEqualSpread(elevators: seq<Elevator>) returns (ok: bool)
    requires forall i, j :: 0 <= i < j < |elevators| ==> elevators[i] != elevators[j]
    modifies elevators
    ensures ok <==> SameBuilding(old(Fleet(elevators)))
    ensures !ok ==> forall i :: 0 <= i < |elevators| ==> elevators[i].State() == old(elevators[i].State())
    ensures ok ==> forall i :: 0 <= i < |elevators| ==>
      elevators[i].State() == old(elevators[i].State()).(idleTarget := SpreadTargets(old(Fleet(elevators)))[i])
  {
    ok := CheckSameBuilding(elevators);
    if !ok {
      return;
    }
    var idle;
    ghost var pos;
    idle, pos := EmptyElevators(elevators);
    FleetAll(elevators);
    SpreadOver(elevators, idle, pos, Fleet(elevators));
  }

  /** One turn of that loop: `elevator.idle_target = target_floor` for the
      `r`-th empty car, which sits at roster position `at`. */
  method Retarget(elevators: seq<Elevator>, ghost cars: seq<Car>, ghost r: nat, ghost at: nat, elevator: Elevator, targetFloor: int)
    requires |cars| == |elevators| && at < |cars| && elevators[at] == elevator
    requires forall i, j :: 0 <= i < j < |elevators| ==> elevators[i] != elevators[j]
    requires IsEmpty(cars[at]) && EmptyBefore(cars, at) == r && r < EmptyBefore(cars, |cars|)
    requires targetFloor == SpreadTarget(r, cars[0].numFloors, EmptyBefore(cars, |cars|))
    requires forall i :: 0 <= i < |elevators| ==> elevators[i].State() == SpreadSoFar(cars, i, r)
    modifies elevator
    ensures forall i :: 0 <= i < |elevators| ==> elevators[i].State() == SpreadSoFar(cars, i, r + 1)
  {
    elevator.idleTarget := Some(targetFloor);
    forall i | 0 <= i < |elevators|
      ensures elevators[i].State() == SpreadSoFar(cars, i, r + 1)
    {
      if i != at {
        assert elevators[i] != elevator;
        if IsEmpty(cars[i]) && EmptyBefore(cars, i) == r {
          RankUnique(cars, i, at);
        }
        SpreadSoFarOther(cars, i, r);
      }
    }
  }

  /** The loop of `position_idle_elevators`: the `r`-th of the `k` empty
      elevators gets `SpreadTarget(r, top_floor, k)`. */
  method SpreadOver(elevators: seq<Elevator>, idle: seq<Elevator>, ghost pos: seq<nat>, ghost cars: seq<Car>)
    requires |cars| == |elevators| > 0 && forall i :: 0 <= i < |elevators| ==> elevators[i].State() == cars[i]
    requires forall i, j :: 0 <= i < j < |elevators| ==> elevators[i] != elevators[j]
    requires |idle| == |pos| == EmptyBefore(cars, |cars|)
    requires forall r :: 0 <= r < |pos| ==>
      pos[r] < |cars| && idle[r] == elevators[pos[r]] && IsEmpty(cars[pos[r]]) && EmptyBefore(cars, pos[r]) == r
    modifies elevators
    ensures forall i :: 0 <= i < |elevators| ==>
      elevators[i].State() == cars[i].(idleTarget := SpreadTargets(cars)[i])
  {
    var topFloor := elevators[0].numFloors;
    var k := |idle|;
    var r := 0;
    while r < k
      invariant 0 <= r <= k
      invariant forall i :: 0 <= i < |elevators| ==> elevators[i].State() == SpreadSoFar(cars, i, r)
    {
      var elevator := idle[r];
      var targetFloor := RoundHalfEven((2 * r + 1) * topFloor, 2 * k);
      Retarget(elevators, cars, r, pos[r], elevator, targetFloor);
      r := r + 1;
    }
    SpreadSoFarDone(cars);
  }
}
