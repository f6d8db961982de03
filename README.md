# Elevator dispatch simulator, modelled in Dafny

This project models the discrete-time elevator dispatch simulator of
`elevator_system_design/`. Its parts:

- **Elevator cars.** Each car runs a SCAN-style sweep over three signed-floor priority queues: `trailing`, `opposite` and `current`. A stop is stored as `floor * direction.value`.
- **The controller.** It keeps, per elevator and per floor, a bucket of waiting passengers and a bucket of riders. It also keeps a set of passengers still to be placed, two running summaries (wait time and total time) and a clock.
- **Two assignment policies.** Closest-empty and directional.
- **Two idle policies.** Middle floor and equal spread.
- **The value types.** `Direction`, `Passenger` and the `SystemSummary` statistics.
- **The CSV batch grouper.** It turns time-stamped rows into one batch of passengers per tick.

Every imperative part of the source is a Dafny `class` or a `method` with loops, proved equal to a specification function:

- `Elevators.Elevator` has the methods `AdjustTargets`, `Move`, `Assign`, `Embark` and `Disembark`.
- `ControllerObject.ElevatorController` has the methods `RequestElevator`, `Step`, `HandlePassengerRequests` and `GetStats`.
- `Summaries.SystemSummary` is the summary object.
- The strategies and the grouper are methods over a roster of `Elevator` objects or over parsed rows.

The specification functions live on values:

- `Elevators.Car` for one car;
- `Controller.World` for the whole controller;
- `Summaries.Stats` for a summary.

The properties of the source are lemmas about these functions. Heaps are sorted sequences: `s[0]` is the minimum, as `heap[0]` is, and `heappush` is a sorted insert.

Modules and files:

| file | module | models |
|---|---|---|
| `basics.dfy` | `Basics` | `Optional`, `sys.maxsize`, `abs`/`min`/`max` |
| `direction.dfy` | `Directions` | `model/direction.py` |
| `passenger.dfy` | `Passengers` | `model/passenger.py` |
| `heaps.dfy` | `Heaps` | the `heapq` lists |
| `summary.dfy` | `Summaries` | `model/system_summary.py` |
| `elevator.dfy` | `Elevators` | `model/elevator.py` |
| `assignment.dfy` | `Assignment` | `strategies/assignment.py` |
| `idle.dfy` | `Idle` | `strategies/idle.py` (middle floor, equal spread) |
| `controller.dfy` | `Controller` | `elevator_controller.py`, as functions on a `World` value |
| `controller_object.dfy` | `ControllerObject` | `elevator_controller.py`, the object and its methods |
| `providers.dfy` | `Providers` | `csv_passenger_provider` of `passenger_providers.py` |

Behaviour of the code that the model keeps as written:

- **`embark` and IDLE cars.** `embark` refuses a passenger whenever the passenger's direction differs from the car's. An IDLE car therefore never takes anyone on, because a passenger is never IDLE (`model/elevator.py:212`).
- **Retry order.** The retry of pending passengers sorts a `set` by request time (`elevator_controller.py:119`). Ties are broken by the set's iteration order, which is not deterministic in the model.
- **The second drain loop.** It compares `total_time_summary.n` with a total that also counts passengers who needed no ride (`elevator_controller.py:136`, `141-142`, `150`). It therefore never exits once such a passenger arrived.

Behaviour of the code that the model changes:

- **Pending set.** `pending_passengers` is a class attribute of `ElevatorController`, so all controllers share one set. The model gives each controller its own set.

## Model

| member | source | states |
|---|---|---|
| Directions.Reverse | elevator_system_design/model/direction.py:9-20 | reversing negates the enum value; the result is IDLE exactly when the input is IDLE |
| Directions.ReverseInvolutive | elevator_system_design/model/direction.py:9-20 | reversing twice gives back the direction |
| Directions.ValueInjective | elevator_system_design/model/direction.py:4-7 | the values are exactly 1, -1 and 0, and the value identifies the direction |
| Directions.ScaleIsProduct | elevator_system_design/model/direction.py:4-7 | a floor signed by a direction is `floor * direction.value`, and signing by the reverse negates it |
| Passengers.Dir | elevator_system_design/model/passenger.py:15-25 | the passenger's direction is never IDLE; it is DOWN exactly when source > destination; `value * (destination - source) >= 0` |
| Passengers.DegenerateGoesUp | elevator_system_design/model/passenger.py:22-25 | a request with equal source and destination goes UP |
| Basics.Abs | elevator_system_design/model/elevator.py:103 | `abs` is non-negative and equals x or -x |
| Basics.Min | elevator_system_design/model/elevator.py:155 | `min` is a lower bound that is one of its arguments |
| Basics.Max | elevator_system_design/model/elevator.py:155 | `max` is an upper bound that is one of its arguments |
| Heaps.SortedAll | elevator_system_design/model/elevator.py:123 | the head-first ordering is the pairwise ordering a heap's `[0]` read relies on |
| Heaps.Push | elevator_system_design/model/elevator.py:177-190 | `heappush` keeps the queue ordered, adds exactly the new entry to its multiset and grows it by one |
| Heaps.PushEmpty | elevator_system_design/model/elevator.py:132 | pushing onto an empty queue leaves exactly that one entry |
| Heaps.HeadIsMin | elevator_system_design/model/elevator.py:123 | the head of an ordered queue is its minimum |
| Heaps.Largest | elevator_system_design/model/elevator.py:107 | `max(heap)` is an entry of the queue and bounds every entry |
| Summaries.Record | elevator_system_design/model/system_summary.py:12-22 | `include(t)` lowers the minimum to at most t and raises the maximum to at least t, each staying old or becoming t; it adds t to the sum and 1 to n; it leaves the no-action count alone |
| Summaries.View | elevator_system_design/model/system_summary.py:39-56 | `__dict__` reports `None` for min/max exactly at the sentinels, and `n_passengers = n + no_action_passengers` |
| Summaries.CollectedCounts | elevator_system_design/model/system_summary.py:19-22 | after including a list of times, n is its length and the no-action count is 0 |
| Summaries.CollectedSum | elevator_system_design/model/system_summary.py:21 | the sum is the total of the times included |
| Summaries.CollectedBounds | elevator_system_design/model/system_summary.py:6-22 | min and max bound every included time, never pass their sentinels, and are included times once they leave them |
| Summaries.CollectedSpread | elevator_system_design/model/system_summary.py:19-22 | after at least one include, `n * min <= sum <= n * max` |
| Summaries.RecordSpread | elevator_system_design/model/system_summary.py:19-22 | one include preserves `n * min <= sum <= n * max` |
| Summaries.CollectedView | elevator_system_design/model/system_summary.py:50-56 | for times in `[0, sys.maxsize)`, min and max are reported as `None` exactly when nothing was included, and every included time is counted |
| Summaries.CollectedExtremes | elevator_system_design/model/system_summary.py:50-52 | a reported min (max) is an included time no greater (no smaller) than any other |
| Summaries.CollectedMean | elevator_system_design/model/system_summary.py:30-37 | the mean of included times lies between their minimum and maximum |
| Summaries.MeanBetween | elevator_system_design/model/system_summary.py:30-37 | `sum / n` lies between min and max whenever `n * min <= sum <= n * max` |
| Summaries.RecordCommutes | elevator_system_design/model/system_summary.py:19-22 | the statistics do not depend on the order in which times are included |
| Summaries.NoActionCounted | elevator_system_design/model/system_summary.py:24-28 | `no_action` adds one to the reported passengers and to the no-action count, and changes nothing else reported |
| Summaries.CollectedCountUp | test/model/test_system_summary.py:9-16 | including 0..k-1 gives min 0, max k-1, n = k and `2 * sum = k(k-1)` |
| Summaries.CountUpMean | elevator_system_design/model/system_summary.py:35-37 | the mean of 0..k-1 is (k-1)/2 |
| Summaries.TenTimes | test/model/test_system_summary.py:9-16 | including 0..9 reports min 0, max 9, mean 4.5 and 10 passengers |
| Summaries.SystemSummary.constructor | elevator_system_design/model/system_summary.py:6-10 | a new summary starts at min `sys.maxsize`, max -1 and zero counts |
| Summaries.SystemSummary.Include | elevator_system_design/model/system_summary.py:12-22 | the object's fields become `Record` of the old ones |
| Summaries.SystemSummary.NoActionPassenger | elevator_system_design/model/system_summary.py:24-28 | the object's fields become `NoAction` of the old ones |
| Summaries.NoAction | elevator_system_design/model/system_summary.py:24-28 | defines `no_action()`: one more no-action passenger, every other statistic unchanged |
| Summaries.Mean | elevator_system_design/model/system_summary.py:30-37 | defines `mean()`: 0 before anything was included, otherwise `sum / n` as an exact real quotient |
| Elevators.Clamp | elevator_system_design/model/elevator.py:155-162 | `max(1, min(num_floors, f))` lies in `[1, num_floors]` and keeps a floor already inside |
| Elevators.IsEmpty | elevator_system_design/model/elevator.py:53-58 | a car is empty exactly when all three queues are empty, that is when it holds zero entries in total |
| Elevators.IsIdle | elevator_system_design/model/elevator.py:60-65 | defines `is_idle`: the direction is IDLE |
| Elevators.CanAccommodate | elevator_system_design/model/elevator.py:67-72 | defines `can_accommodate`: `passenger_count < max_capacity` |
| Elevators.HasTargetWithDirection | elevator_system_design/model/elevator.py:74-87 | true exactly when the signed stop `target * d.value` is an entry of some queue |
| Elevators.AnyAtMost | elevator_system_design/model/elevator.py:106 | the set comprehension `sum({1 for t in s if t <= x})` is 1 when some entry is at most x and 0 otherwise |
| Elevators.DistanceFrom | elevator_system_design/model/elevator.py:89-115 | the distance is the plain floor distance for an IDLE car, and never below it when `stop_time >= 0` |
| Elevators.PopReachedFacts | elevator_system_design/model/elevator.py:123-125 | the pop loop removes a prefix of the current queue, all at or behind the car; it stops at a head ahead of the car; it arms the dwell counter exactly when it removed one; it changes nothing else and keeps the queue ordered |
| Elevators.RotatePreservesEntries | elevator_system_design/model/elevator.py:133-136 | a reversal reverses the direction and loses or duplicates no scheduled stop |
| Elevators.TurnAhead | elevator_system_design/model/elevator.py:128-136 | with the current sweep empty, either one stop strictly ahead of the car is copied in (direction kept, opposite head not popped) or the car reverses |
| Elevators.SettleShape | elevator_system_design/model/elevator.py:122-136 | within the remaining passes, the outer loop ends with no stops at all or with a current head ahead of the car |
| Elevators.AdjustedShape | elevator_system_design/model/elevator.py:117-136 | after `adjust_targets` either every queue is empty or the current queue's head lies ahead of the car, so `move`'s read of `cur_dir[0]` is safe |
| Elevators.SettleFacts | elevator_system_design/model/elevator.py:121-136 | the passes change only queues, dwell and direction; direction stays or reverses; dwell stays or becomes `stop_time`, and must become it when the head was reached; queues stay ordered |
| Elevators.AdjustedFacts | elevator_system_design/model/elevator.py:117-136 | `adjust_targets` never changes floor, load or configuration; it keeps or reverses the direction; it arms the dwell counter when the head is reached; it keeps the car valid |
| Elevators.AdjustedKeepsSweep | elevator_system_design/model/elevator.py:122-127 | while a current stop remains ahead, `adjust_targets` only pops reached stops, keeps the direction and adds no entry |
| Elevators.MovedDwelling | elevator_system_design/model/elevator.py:144-148 | while the dwell counter is positive after settling, `move` only decrements it |
| Elevators.MovedParked | elevator_system_design/model/elevator.py:150-153 | an unscheduled car with no idle target turns IDLE and stays |
| Elevators.MovedDrifting | elevator_system_design/model/elevator.py:150-163 | an unscheduled car with an idle target drifts toward it and settles again |
| Elevators.MovedAdvancing | elevator_system_design/model/elevator.py:158-163 | a scheduled car has a current head and steps toward it, then settles again |
| Elevators.MovedStaysInBuilding | elevator_system_design/model/elevator.py:138-163 | `move` keeps the car valid (floor in `[1, num_floors]`, queues ordered), changes the floor by at most one and keeps load, idle target and configuration |
| Elevators.MovedWhileDwelling | elevator_system_design/model/elevator.py:146-148 | while dwelling the floor does not change |
| Elevators.AdjustedUnscheduled | elevator_system_design/model/elevator.py:117-136 | `adjust_targets` on an empty IDLE car changes nothing |
| Elevators.MovedWhenUnscheduled | elevator_system_design/model/elevator.py:150-157 | with empty queues the car turns IDLE and stays empty; it stays put without a target, and otherwise steps one floor toward the target, clamped |
| Elevators.MovedTowardNextStop | elevator_system_design/model/elevator.py:158-162 | a positive head moves the car up one floor and a negative one moves it down, clamped |
| Elevators.PushStops | elevator_system_design/model/elevator.py:183-190 | the two pushes add exactly the passenger's two signed stops |
| Elevators.EnqueueOpposite | elevator_system_design/model/elevator.py:182-184 | a passenger travelling against the car's direction goes to the opposite queue |
| Elevators.EnqueueOppositeStops | elevator_system_design/model/elevator.py:182-184 | in that case the opposite queue and all entries gain exactly the two stops |
| Elevators.EnqueueTrailing | elevator_system_design/model/elevator.py:185-187 | otherwise a source not ahead of the car goes to the trailing queue |
| Elevators.EnqueueTrailingStops | elevator_system_design/model/elevator.py:185-187 | in that case the trailing queue and all entries gain exactly the two stops |
| Elevators.EnqueueCurrent | elevator_system_design/model/elevator.py:188-190 | otherwise the pair goes to the current queue |
| Elevators.EnqueueCurrentStops | elevator_system_design/model/elevator.py:188-190 | in that case the current queue and all entries gain exactly the two stops |
| Elevators.AssignedIsEnqueue | elevator_system_design/model/elevator.py:174-190 | `assign` is the empty-car commitment followed by the enqueue of the pair |
| Elevators.CommitOrdered | elevator_system_design/model/elevator.py:175-180 | the commitment keeps the queues ordered |
| Elevators.CommitFacts | elevator_system_design/model/elevator.py:175-180 | an empty car elsewhere heads UP or DOWN toward the source and schedules `±source`; any other car is left unchanged |
| Elevators.EnqueueFacts | elevator_system_design/model/elevator.py:182-190 | the enqueue adds exactly the two signed stops, keeps the queues ordered and touches nothing else |
| Elevators.AssignedSchedulesBothStops | elevator_system_design/model/elevator.py:165-191 | after `assign` both floors are targets in the passenger's direction; the car is not empty; floor and load are unchanged; entries grow by 2, or 3 for an empty car elsewhere |
| Elevators.AssignedToEmptyCar | elevator_system_design/model/elevator.py:175-180 | an empty car heads UP with `+source` scheduled when the source is above, and DOWN with `-source` when it is below; on the source floor its direction is kept |
| Elevators.AssignedClassification | elevator_system_design/model/elevator.py:182-190 | for a busy car, the pair goes to exactly one queue: opposite iff the directions disagree, else trailing iff the source is not ahead, else current; the direction is kept |
| Elevators.EmbarkRules | elevator_system_design/model/elevator.py:203-217 | `embark` succeeds iff on the source floor with room and the same direction; an IDLE car never takes anyone; success keeps the load within capacity and changes only the load |
| Elevators.Alighted | elevator_system_design/model/elevator.py:228-232 | `disembark` decrements the load exactly when on the destination floor and changes nothing else |
| Elevators.Elevator.Empty | elevator_system_design/model/elevator.py:53-58 | the field-level emptiness test agrees with `IsEmpty` of the state |
| Elevators.Elevator.constructor | elevator_system_design/model/elevator.py:23-51 | a new car is on floor 1, IDLE, empty, with no dwell and no idle target |
| Elevators.Elevator.AdjustTargets | elevator_system_design/model/elevator.py:117-136 | the three-pass loop with its inner pop loop computes `Adjusted` of the old state |
| Elevators.Elevator.TurnAround | elevator_system_design/model/elevator.py:128-136 | the tail of one pass computes `Turn` of the old state |
| Elevators.Elevator.Move | elevator_system_design/model/elevator.py:138-163 | `move` computes `Moved` of the old state |
| Elevators.Elevator.Travel | elevator_system_design/model/elevator.py:150-163 | a settled car that is not dwelling drifts or steps one floor and settles again, as `Moved` says |
| Elevators.Elevator.PushCurrent | elevator_system_design/model/elevator.py:177 | `heappush` onto the current heap changes that heap only |
| Elevators.Elevator.PushOpposite | elevator_system_design/model/elevator.py:183-184 | `heappush` onto the opposite heap changes that heap only |
| Elevators.Elevator.PushTrailing | elevator_system_design/model/elevator.py:186-187 | `heappush` onto the trailing heap changes that heap only |
| Elevators.Elevator.Assign | elevator_system_design/model/elevator.py:165-191 | `assign` returns True and computes `Assigned` of the old state |
| Elevators.Elevator.CommitTo | elevator_system_design/model/elevator.py:175-180 | the first `if` of `assign` computes `Commit` |
| Elevators.Elevator.EnqueueStops | elevator_system_design/model/elevator.py:182-190 | the second `if` of `assign` computes `Enqueue` |
| Elevators.Elevator.Embark | elevator_system_design/model/elevator.py:193-217 | `embark` answers `EmbarkDecision` (raise, False or True) and leaves the state `Boarded` |
| Elevators.Elevator.Disembark | elevator_system_design/model/elevator.py:219-232 | `disembark` answers `DisembarkDecision` (raise or not) and leaves the state `Alighted` |
| Elevators.FleetAll | elevator_system_design/elevator_controller.py:14 | the roster's states are the states of its elevators, in order |
| Elevators.PopReached | elevator_system_design/model/elevator.py:123-125 | defines the inner `while` of `adjust_targets`: pop current-sweep stops at or behind the car, arming the dwell counter on each pop |
| Elevators.Rotate | elevator_system_design/model/elevator.py:133-136 | defines the reversal: direction reversed, the opposite queue becomes the current sweep, the trailing queue the opposite one, trailing emptied |
| Elevators.Turn | elevator_system_design/model/elevator.py:128-136 | defines one turn of an exhausted sweep: push the opposite queue's first stop (or the car's own floor) when it lies ahead, otherwise `Rotate` |
| Elevators.Settle | elevator_system_design/model/elevator.py:122-136 | defines the remaining passes of the `for _ in range(3)` loop: pop reached stops, stop when the sweep has a stop left, otherwise turn |
| Elevators.Adjusted | elevator_system_design/model/elevator.py:117-136 | defines `adjust_targets` as three passes of `Settle` |
| Elevators.Drift | elevator_system_design/model/elevator.py:150-162 | defines the step of an empty car with an idle target: direction IDLE, one clamped floor toward the target, then the clamp of line 162 with IDLE's value 0 |
| Elevators.Advance | elevator_system_design/model/elevator.py:158-162 | defines the step of a scheduled car: direction from the sign of the current queue's head, then one clamped floor that way |
| Elevators.Moved | elevator_system_design/model/elevator.py:138-163 | defines `move`: adjust, then dwell one tick, or go IDLE and stay (empty, no idle target), or `Drift` or `Advance` and adjust again |
| Elevators.Commit | elevator_system_design/model/elevator.py:174-180 | defines the first half of `assign`: an empty car heads UP or DOWN toward a source floor above or below it and pushes that floor signed |
| Elevators.Enqueue | elevator_system_design/model/elevator.py:182-190 | defines the second half of `assign`: the signed source and destination go to the opposite, trailing or current queue by direction and position |
| Elevators.Assigned | elevator_system_design/model/elevator.py:165-191 | defines `assign` as `Commit` then `Enqueue` |
| Elevators.EmbarkDecision | elevator_system_design/model/elevator.py:203-217 | defines the answer of `embark`: `InvalidEmbarkRequest` off the source floor, false when full or travelling the other way, true otherwise |
| Elevators.Boarded | elevator_system_design/model/elevator.py:216 | defines the car after `embark`: one more passenger exactly when it accepted |
| Elevators.DisembarkDecision | elevator_system_design/model/elevator.py:228-231 | defines the answer of `disembark`: `InvalidDisembarkRequest` off the destination floor, otherwise no error |
| Assignment.Gap | elevator_system_design/strategies/assignment.py:41 | the distance to the source floor is non-negative and zero exactly on that floor |
| Assignment.NearestKeep | elevator_system_design/strategies/assignment.py:38-45 | a car that is not considered, or not strictly nearer, leaves the answer unchanged |
| Assignment.NearestTake | elevator_system_design/strategies/assignment.py:42-44 | a considered car strictly nearer than the answer so far becomes the answer |
| Assignment.FirstNearestUnique | elevator_system_design/strategies/assignment.py:36-45 | the rule "first considered car at the least distance, else None" determines a unique answer |
| Assignment.Nearest | elevator_system_design/strategies/assignment.py:36-45 | the one-car-at-a-time scan meets that rule on every prefix of the roster |
| Assignment.EmptyMask | elevator_system_design/strategies/assignment.py:40 | closest-empty considers exactly the empty cars |
| Assignment.ClosestEmptyStrategy | elevator_system_design/strategies/assignment.py:24-45 | the answer is the first empty car at the least distance from the source floor, or None exactly when no car is empty |
| Assignment.RequestSign | elevator_system_design/strategies/assignment.py:65-67 | the request's sign is +1 when the source is above the car, -1 when below, and the passenger's direction on the same floor |
| Assignment.DirectionalMask | elevator_system_design/strategies/assignment.py:68-72 | directional considers a car iff it is idle or heading the request's way, has room, and is nearer than `sys.maxsize` |
| Assignment.DirectionalStrategy | elevator_system_design/strategies/assignment.py:49-75 | the answer is the first considered car at the least distance, or None when none is considered |
| Assignment.ClosestEmptyPicksNearest | test/strategies/test_empty_elevator_assigment_strategy.py:6-15 | ten empty cars on floors 10..1: the car on floor 1 (index 9) is chosen |
| Assignment.ClosestEmptySkipsBusy | test/strategies/test_empty_elevator_assigment_strategy.py:18-46 | busy cars are never chosen: only car 0 empty gives 0, none empty gives None |
| Assignment.DirectionalSameFloor | test/strategies/test_directional_elevator_assignment_strategy.py:7-17 | cars going up on floors 1..10: the request from floor 2 up gets car 1 |
| Assignment.DirectionalToward | test/strategies/test_directional_elevator_assignment_strategy.py:20-30 | the same cars going down: car 2, the first coming toward the passenger |
| Assignment.DirectionalAllAway | test/strategies/test_directional_elevator_assignment_strategy.py:33-43 | cars all above and going up: None |
| Assignment.Dispatch | elevator_system_design/elevator_controller.py:88 | a strategy answers None or an index into the roster |
| Assignment.DispatchFollowsRule | elevator_system_design/strategies/assignment.py:36-75 | the dispatch follows its strategy's rule |
| Assignment.AssignElevator | elevator_system_design/elevator_controller.py:88 | running either strategy object on a roster answers `Dispatch` of the roster's states and changes no elevator |
| Assignment.Mask | elevator_system_design/strategies/assignment.py:40 | defines which cars a strategy considers: the empty ones for closest-empty (line 40), those passing the direction test of lines 65-70 for directional |
| Idle.RoundHalfEvenNearest | elevator_system_design/strategies/idle.py:46 | Python's `round` of `num / den` is within half a unit of it and even on a tie |
| Idle.RoundHalfEvenMonotone | elevator_system_design/strategies/idle.py:46 | rounding preserves order |
| Idle.MiddleTargetExamples | test/strategies/test_middle_floor_idle_strategy.py:5-20 | 10 floors and 11 floors both give target 5 |
| Idle.MiddleTargetRange | elevator_system_design/strategies/idle.py:27-29 | the middle target is a floor of the building from two floors up, and 0 for a one-floor building |
| Idle.PositionMiddleFloor | elevator_system_design/strategies/idle.py:20-29 | every car, busy or not, gets idle target `num_floors // 2` and nothing else changes |
| Idle.SpreadTargetCentred | elevator_system_design/strategies/idle.py:46 | the i-th of k targets is within half a floor of `(i + 0.5) * n / k` |
| Idle.SpreadTargetMonotone | elevator_system_design/strategies/idle.py:44-46 | later idle cars never get lower targets |
| Idle.SpreadTargetRange | elevator_system_design/strategies/idle.py:44-46 | every target lies in `[0, n]` |
| Idle.SpreadTargetExamples | test/strategies/test_equal_spread_idle_strategy.py:5-18 | five cars over 10 floors get 1, 3, 5, 7, 9 and over 23 floors 2, 7, 12, 16, 21 |
| Idle.EmptyBefore | elevator_system_design/strategies/idle.py:43 | the rank of a car among the empty ones is at most its roster index |
| Idle.EmptyBeforeMonotone | elevator_system_design/strategies/idle.py:43 | ranks grow along the roster, strictly past an empty car |
| Idle.RankUnique | elevator_system_design/strategies/idle.py:43-45 | two empty cars with the same rank are the same car |
| Idle.SpreadTargetsOrdered | elevator_system_design/strategies/idle.py:43-47 | empty cars get targets in `[0, top_floor]` that do not decrease along the roster |
| Idle.CheckSameBuilding | elevator_system_design/strategies/idle.py:40-41 | the two `assert`s pass iff the roster is non-empty and all cars have the same floor count |
| Idle.EmptyElevators | elevator_system_design/strategies/idle.py:43 | the list comprehension yields the empty cars in roster order, the r-th of them with rank r |
| Idle.SpreadSoFarOther | elevator_system_design/strategies/idle.py:44-47 | retargeting the r-th empty car leaves every other car as it was |
| Idle.SpreadSoFarDone | elevator_system_design/strategies/idle.py:44-47 | after all k empty cars are retargeted the roster carries `SpreadTargets` |
| Idle.PositionEqualSpread | elevator_system_design/strategies/idle.py:33-47 | on a failed assertion nothing changes; otherwise each empty car gets its spread target and every other car and field is unchanged |
| Idle.Retarget | elevator_system_design/strategies/idle.py:45-47 | one loop turn sets the idle target of the r-th empty car |
| Idle.SpreadOver | elevator_system_design/strategies/idle.py:44-47 | the loop sets every empty car's target to its spread target and changes nothing else |
| Idle.RoundHalfEven | elevator_system_design/strategies/idle.py:46 | defines Python's `round` of an exact quotient: nearest integer, ties to the even one |
| Idle.MiddleTarget | elevator_system_design/strategies/idle.py:28 | defines the middle-floor target `num_floors // 2` |
| Idle.SpreadTarget | elevator_system_design/strategies/idle.py:46 | defines the target of the i-th of k idle cars: `(2i + 1) n / 2k` rounded half to even |
| Idle.SpreadTargets | elevator_system_design/strategies/idle.py:42-47 | defines the targets after the equal spread: the r-th empty car of k gets `SpreadTarget(r, n, k)`, a busy car keeps its target |
| Controller.CabsOkAll | elevator_system_design/elevator_controller.py:68-69 | the per-elevator invariant holds for the roster iff it holds for every car and its buckets |
| Controller.AlightNeverRaises | elevator_system_design/elevator_controller.py:105-107 | under the bucket invariant, `disembark` of a rider of the car's floor never raises |
| Controller.BoardNeverRaises | elevator_system_design/elevator_controller.py:110-112 | under the bucket invariant, `embark` of a passenger waiting on the car's floor never raises |
| Controller.AlightOne | elevator_system_design/elevator_controller.py:106-109 | one rider off keeps the invariant and shrinks the floor's bucket by one |
| Controller.Alight | elevator_system_design/elevator_controller.py:105-109 | the first `while` empties the floor's rider bucket, lowers the load by its size and adds that many total times; it keeps the invariant and touches no waiting passenger, pending passenger or wait time |
| Controller.BoardOne | elevator_system_design/elevator_controller.py:111-117 | one popped waiting passenger ends up either riding in the bucket of their destination (load +1 and one wait time) or pending; nobody else is lost |
| Controller.Board | elevator_system_design/elevator_controller.py:110-117 | the second `while` empties the floor's waiting bucket; riders gained equal wait times recorded; total times are untouched; pending only grows |
| Controller.BoardOneGrows | elevator_system_design/elevator_controller.py:111-117 | one boarding turn only appends riders: each old bucket is a prefix of the new one |
| Controller.BoardGrows | elevator_system_design/elevator_controller.py:110-117 | the second `while` only appends riders: each old bucket is a prefix of the new one |
| Controller.BoardLosesNobody | elevator_system_design/elevator_controller.py:110-117 | every passenger waiting on the car's floor ends riding to their destination or pending (at least one of the two; `BoardExactlyOne` gives exactly one) |
| Controller.BoardExactlyOne | elevator_system_design/elevator_controller.py:110-117 | a passenger waiting once on the car's floor, and neither pending nor riding before, ends in exactly one of the two: pending, or riding in the bucket of their destination |
| Controller.BoardPassesOver | elevator_system_design/elevator_controller.py:110-117 | boarding neither pends nor seats a passenger who is not waiting on the car's floor |
| Controller.Serve | elevator_system_design/elevator_controller.py:104-118 | serving one elevator (off, on, `move`) keeps the invariant |
| Controller.ServeEmptiesFloor | elevator_system_design/elevator_controller.py:105-118 | the pre-move floor is left with nobody waiting; one total time per rider off; load changes by riders on minus riders off; with nobody riding to that same floor, it has no rider left |
| Controller.BoardKeepsFloorBucket | elevator_system_design/elevator_controller.py:114 | boarding adds no rider to the current floor's bucket unless someone waiting there rides to it |
| Controller.StageOfOk | elevator_system_design/elevator_controller.py:104 | each elevator's share of a valid controller is valid |
| Controller.PutOk | elevator_system_design/elevator_controller.py:104-118 | writing back a valid share keeps the controller valid |
| Controller.AlightOneAt | elevator_system_design/elevator_controller.py:105-109 | the three in-place updates of one alighting turn are `AlightOne` on that car's share, and the rider can get off |
| Controller.BoardOneAt | elevator_system_design/elevator_controller.py:110-117 | the in-place updates of one boarding turn are `BoardOne` on that car's share, and `embark` answers |
| Controller.WaitingAppend | elevator_system_design/elevator_controller.py:95 | appending a passenger to the bucket of their source floor keeps the waiting buckets keyed |
| Controller.Placed | elevator_system_design/elevator_controller.py:92-95 | a placed passenger leaves pending, the car is `Assigned`, they wait in the source-floor bucket, and the invariant holds |
| Controller.PlacedCar | elevator_system_design/elevator_controller.py:94 | the assigned car keeps floor and load and stops at both floors |
| Controller.RequestOk | elevator_system_design/elevator_controller.py:78-95 | `request_elevator` keeps the invariant |
| Controller.RequestBranches | elevator_system_design/elevator_controller.py:88-95 | with no index only pending grows; with index i car i's share becomes `Placed` |
| Controller.RequestPlaces | elevator_system_design/elevator_controller.py:92-95 | with index i: car i is assigned, the passenger leaves pending and waits in bucket `source - 1` of car i; riders, summaries and clock are unchanged |
| Controller.RequestOutcome | elevator_system_design/elevator_controller.py:88-95 | the passenger is pending afterwards iff the strategy found no car; with no car nothing else changes; riders, summaries and clock never change |
| Controller.PositionedTargets | elevator_system_design/elevator_controller.py:102 | positioning changes idle targets only, and gives every empty car one |
| Controller.Position | elevator_system_design/elevator_controller.py:102 | positioning keeps the invariant |
| Controller.PositionOk | elevator_system_design/elevator_controller.py:102 | positioned cars keep the invariant |
| Controller.SpreadSameBuilding | elevator_system_design/strategies/idle.py:40-41 | under the invariant the equal spread's `assert`s hold |
| Controller.ServeAt | elevator_system_design/elevator_controller.py:103-118 | serving elevator i keeps the invariant, the roster size, the clock and the no-action counts |
| Controller.ServeTrace | elevator_system_design/elevator_controller.py:103-118 | the worlds of the `for` loop each keep the invariant, the roster, the clock and the no-action counts, each serving the next elevator |
| Controller.ServeTraceStep | elevator_system_design/elevator_controller.py:103-118 | the world after elevator k is elevator k served in the world before it |
| Controller.Retry | elevator_system_design/elevator_controller.py:119-120 | retrying pending passengers keeps the invariant, roster size, clock and summaries |
| Controller.Served | elevator_system_design/elevator_controller.py:102-118 | positioning then serving all elevators keeps the invariant, roster, clock and no-action counts |
| Controller.Stepped | elevator_system_design/elevator_controller.py:97-122 | `step` keeps the invariant and roster size, advances time by exactly one and keeps the no-action counts |
| Controller.Admit | elevator_system_design/elevator_controller.py:138-144 | admitting one passenger keeps the invariant |
| Controller.AdmitCounts | elevator_system_design/elevator_controller.py:138-144 | a degenerate passenger adds one no-action count to both summaries; any other adds nothing to them; roster and clock are kept |
| Controller.Intake | elevator_system_design/elevator_controller.py:137-144 | the batch intake keeps the invariant |
| Controller.IntakeCounts | elevator_system_design/elevator_controller.py:137-144 | the intake adds exactly the batch's degenerate count to both no-action counts and nothing else to the summaries |
| Controller.IntakeOfDegenerates | elevator_system_design/elevator_controller.py:138-143 | degenerate passengers never reach `request_elevator`: only the summaries change |
| Controller.Tick | elevator_system_design/elevator_controller.py:135-145 | one batch turn keeps the invariant, advances time by one and adds the batch's degenerate count to both no-action counts |
| Controller.RunCounts | elevator_system_design/elevator_controller.py:135-145 | after n batches the invariant holds, exactly n steps ran (time + n), and each no-action count grew by the degenerates of those batches |
| Controller.RunExtend | elevator_system_design/elevator_controller.py:135-145 | a run followed by one more batch turn is a run |
| Controller.EmptyBuckets | elevator_system_design/elevator_controller.py:68-69 | `n_elevators` lists of `n_floors` empty buckets, all with load 0 |
| Controller.StartFloor | elevator_system_design/elevator_controller.py:75-76 | the corrected start floor is a floor of the building and is the idle target whenever that is one |
| Controller.InitialWorldOk | elevator_system_design/elevator_controller.py:64-76 | the controller after `__init__` meets the invariant; every car is empty with an idle target and sits on it when it is a floor |
| Controller.InitialCarOk | elevator_system_design/elevator_controller.py:64-76 | the same, car by car |
| Controller.AsWrittenStartsOnFloorZero | elevator_system_design/elevator_controller.py:74-76 | as written, 2 cars over 2 floors (equal spread) or 1 floor (middle floor) start a car on floor 0 |
| Controller.AsWrittenFirstStepRaises | elevator_system_design/elevator_controller.py:95-112 | with that start, two requests from floor 2 to 1 lead the first `step` to call `embark` with a car on floor 0, which raises `InvalidEmbarkRequest` |
| Controller.StartedOnFloorOne | elevator_system_design/elevator_controller.py:75-76 | corrected, the same cars start on floors 1 and 2 |
| Controller.AlightedAt | elevator_system_design/elevator_controller.py:105-109 | defines one turn of the alighting `while` on the whole controller: pop the last rider of the car's floor, `disembark`, include the total time |
| Controller.BoardedAt | elevator_system_design/elevator_controller.py:110-117 | defines one turn of the boarding `while`: pop the last waiting passenger, `embark`; on success file the rider under the destination and include the wait, otherwise add to pending |
| Controller.Request | elevator_system_design/elevator_controller.py:78-95 | defines `request_elevator`: no car leaves the passenger pending, otherwise the chosen car is assigned and the passenger waits on its source bucket |
| Controller.Positioned | elevator_system_design/strategies/idle.py:19-47 | defines the cars after `position_idle_elevators`: every car targets the middle floor, or each car gets its `SpreadTargets` entry |
| Controller.RetryOrder | elevator_system_design/elevator_controller.py:119 | defines `sorted(pending, key=request_time)`: each pending passenger exactly once, by non-decreasing request time |
| Controller.PyIndex | elevator_system_design/elevator_controller.py:105 | defines Python's reading of a list index: a negative index counts from the end |
| Controller.StartedAsWritten | elevator_system_design/elevator_controller.py:75-76 | defines the start loop as written: each car on its idle target, unclamped |
| Controller.Started | elevator_system_design/elevator_controller.py:75-76 | defines the start loop corrected: each car on its idle target clamped into `[1, n_floors]` (see Findings) |
| Controller.InitialWorld | elevator_system_design/elevator_controller.py:64-76 | defines the controller `__init__` leaves: `k` new cars positioned and started, empty buckets, nobody pending, empty summaries, time 0 |
| ControllerObject.EarliestExists | elevator_system_design/elevator_controller.py:119 | a non-empty pending set has a passenger with the least request time |
| ControllerObject.SortedByRequestTime | elevator_system_design/elevator_controller.py:119 | the pending passengers, each once, in non-decreasing request time |
| ControllerObject.ElevatorController.constructor | elevator_system_design/elevator_controller.py:26-76 | `__init__` leaves `InitialWorld` (starts clamped), valid, with fresh elevators and summaries |
| ControllerObject.ElevatorController.PositionIdle | elevator_system_design/elevator_controller.py:102 | idle positioning computes `Position` and keeps the object valid |
| ControllerObject.ElevatorController.Reposition | elevator_system_design/elevator_controller.py:102 | the configured idle strategy leaves the roster's cars `Positioned` by it |
| ControllerObject.ElevatorController.RepositionMiddle | elevator_system_design/strategies/idle.py:20-29 | the middle-floor strategy leaves the roster's cars `Positioned` by it |
| ControllerObject.ElevatorController.RepositionSpread | elevator_system_design/strategies/idle.py:33-47 | on a roster of one building the equal spread's asserts hold and it leaves the cars `Positioned` by it |
| ControllerObject.ElevatorController.StartOnTargets | elevator_system_design/elevator_controller.py:75-76 | the start loop leaves the roster's cars `Started`: each on its idle target clamped into `[1, n_floors]` (corrected, see Findings) |
| ControllerObject.ElevatorController.NewRoster | elevator_system_design/elevator_controller.py:64 | `__init__` builds `n_elevators` distinct new elevators, each a `FreshCar` |
| ControllerObject.ElevatorController.PlaceRoster | elevator_system_design/elevator_controller.py:74-76 | the end of `__init__` leaves the cars `Started` after `Positioned`: each on its idle target clamped into `[1, n_floors]` (corrected, see Findings) |
| ControllerObject.ElevatorController.RequestElevator | elevator_system_design/elevator_controller.py:78-95 | `request_elevator` computes `Request` and keeps the object valid |
| ControllerObject.ElevatorController.Pend | elevator_system_design/elevator_controller.py:90 | `pending_passengers.add` |
| ControllerObject.ElevatorController.Unpend | elevator_system_design/elevator_controller.py:92-93 | `pending_passengers.remove` when present |
| ControllerObject.ElevatorController.AssignAt | elevator_system_design/elevator_controller.py:94 | the asserted `assign` holds and car i becomes `Assigned` |
| ControllerObject.ElevatorController.WaitAt | elevator_system_design/elevator_controller.py:95 | the passenger is appended to car i's bucket of their source floor |
| ControllerObject.ElevatorController.PopRider | elevator_system_design/elevator_controller.py:106 | pops the last rider of the car's floor |
| ControllerObject.ElevatorController.PopWaiter | elevator_system_design/elevator_controller.py:111 | pops the last passenger waiting on the car's floor |
| ControllerObject.ElevatorController.AddRider | elevator_system_design/elevator_controller.py:114 | appends a rider to the bucket of their destination |
| ControllerObject.ElevatorController.DisembarkAt | elevator_system_design/elevator_controller.py:107 | `disembark` on car i |
| ControllerObject.ElevatorController.EmbarkAt | elevator_system_design/elevator_controller.py:112 | `embark` on car i |
| ControllerObject.ElevatorController.MoveAt | elevator_system_design/elevator_controller.py:118 | `move` on car i |
| ControllerObject.ElevatorController.RecordWait | elevator_system_design/elevator_controller.py:115 | records `time - request_time` in the wait-time summary |
| ControllerObject.ElevatorController.RecordTotal | elevator_system_design/elevator_controller.py:109 | records `time - request_time` in the total-time summary |
| ControllerObject.ElevatorController.NoActionWait | elevator_system_design/elevator_controller.py:141 | one no-action passenger in the wait-time summary |
| ControllerObject.ElevatorController.NoActionTotal | elevator_system_design/elevator_controller.py:142 | one no-action passenger in the total-time summary |
| ControllerObject.ElevatorController.Tick | elevator_system_design/elevator_controller.py:121 | `time += 1` and nothing else |
| ControllerObject.ElevatorController.AlightStep | elevator_system_design/elevator_controller.py:106-109 | one alighting turn computes `AlightedAt` |
| ControllerObject.ElevatorController.AlightTurn | elevator_system_design/elevator_controller.py:106-109 | one alighting turn is `AlightOne` on car i's share: the floor's rider bucket shrinks and what the loop ends in, `Alight`, is unchanged |
| ControllerObject.ElevatorController.AlightLeft | elevator_system_design/elevator_controller.py:105 | the loop test is true exactly when riders for the car's floor remain |
| ControllerObject.ElevatorController.AlightAll | elevator_system_design/elevator_controller.py:105-109 | the first `while` computes `Alight` on car i's share |
| ControllerObject.ElevatorController.BoardStep | elevator_system_design/elevator_controller.py:111-117 | one boarding turn computes `BoardedAt` |
| ControllerObject.ElevatorController.TryBoard | elevator_system_design/elevator_controller.py:112-117 | a taken passenger rides and their wait is recorded; a refused one goes back to pending |
| ControllerObject.ElevatorController.Seat | elevator_system_design/elevator_controller.py:114-115 | a taken passenger rides to their destination and their wait is recorded |
| ControllerObject.ElevatorController.BoardTurn | elevator_system_design/elevator_controller.py:111-117 | one boarding turn is `BoardOne` on car i's share: the floor's waiting bucket shrinks and what the loop ends in, `Board`, is unchanged |
| ControllerObject.ElevatorController.BoardLeft | elevator_system_design/elevator_controller.py:110 | the loop test is true exactly when passengers wait on the car's floor |
| ControllerObject.ElevatorController.BoardAll | elevator_system_design/elevator_controller.py:110-117 | the second `while` computes `Board` on car i's share |
| ControllerObject.ElevatorController.ServeElevator | elevator_system_design/elevator_controller.py:104-118 | serving elevator i computes `ServeAt` and keeps the object valid |
| ControllerObject.ElevatorController.Step | elevator_system_design/elevator_controller.py:97-121 | `step` computes `Stepped` with pending retried earliest first, and keeps the object valid |
| ControllerObject.ElevatorController.RetryThenTick | elevator_system_design/elevator_controller.py:119-121 | after the serving part, retrying the pending passengers and advancing the clock completes `Stepped` and keeps the object valid |
| ControllerObject.ElevatorController.ServeRoster | elevator_system_design/elevator_controller.py:102-118 | idle positioning then the `for` loop compute `Served` |
| ControllerObject.ElevatorController.ServeAll | elevator_system_design/elevator_controller.py:103-118 | the `for` loop ends in the last world of `ServeTrace` |
| ControllerObject.ElevatorController.ServeTurn | elevator_system_design/elevator_controller.py:104-118 | one loop turn moves one world along `ServeTrace` |
| ControllerObject.ElevatorController.RetryPending | elevator_system_design/elevator_controller.py:119-120 | pending passengers are requested again in request-time order, computing `Retry` |
| ControllerObject.ElevatorController.Acknowledge | elevator_system_design/elevator_controller.py:137-144 | the inner `for` computes `Intake` |
| ControllerObject.ElevatorController.HandlePassengerRequests | elevator_system_design/elevator_controller.py:124-145 | the batch loop is a `Run`: one `Tick` per batch from the old state to the new one |
| ControllerObject.ElevatorController.HandleBatch | elevator_system_design/elevator_controller.py:136-145 | one batch turn extends the run by one `Tick` |
| ControllerObject.ElevatorController.GetStats | elevator_system_design/elevator_controller.py:154-163 | `get_stats` returns the two summaries' reports and changes nothing, so two calls agree |
| Providers.CsvPassengerProvider | elevator_system_design/passenger_providers.py:10-27 | the generator yields `Grouped(rows)`, whose concatenation is the input |
| Providers.FeedKeepsRows | elevator_system_design/passenger_providers.py:19-23 | feeding a row loses, duplicates and reorders nothing |
| Providers.FeedCatches | elevator_system_design/passenger_providers.py:19-23 | after a row the counter is the row's time if later, else unchanged, and the batch stays caught up |
| Providers.FedFacts | elevator_system_design/passenger_providers.py:14-23 | the row loop keeps every row in order and leaves the batch caught up |
| Providers.TrailingYieldsNothing | elevator_system_design/passenger_providers.py:24-27 | the trailing `while` never yields; only the last batch follows |
| Providers.GroupedFlattens | elevator_system_design/passenger_providers.py:19-27 | the concatenation of all batches is the input, sorted or not |
| Providers.EmptyInputOneBatch | elevator_system_design/passenger_providers.py:10-27 | an empty input yields exactly one empty batch |
| Providers.FeedAhead | elevator_system_design/passenger_providers.py:19-23 | a later row yields the batch, an empty batch per skipped tick, and starts its own tick's batch |
| Providers.AtMissing | elevator_system_design/passenger_providers.py:19-23 | a tick with no row has an empty batch |
| Providers.FedFirst | elevator_system_design/passenger_providers.py:14-23 | the first sorted row starts its tick's batch with every earlier batch empty |
| Providers.FedNext | elevator_system_design/passenger_providers.py:14-23 | each further sorted row keeps one batch per earlier tick holding exactly that tick's rows |
| Providers.FedSorted | elevator_system_design/passenger_providers.py:14-23 | for sorted rows the loop has yielded one batch per tick before the last row's, each holding exactly that tick's rows |
| Providers.GroupedSorted | elevator_system_design/passenger_providers.py:14-27 | for sorted non-empty rows there are last time + 1 batches, and batch t is exactly the rows of time t in input order |
| Providers.LateRowJoinsCurrentBatch | elevator_system_design/passenger_providers.py:19-23 | a row behind the counter joins the current batch: times 2 then 1 give `[[], [], [a, b]]` |
| Providers.ElevenBatches | test/test_passenger_providers.py:6-17 | times 0, 0, 10 give eleven batches: the first two rows, nine empty ones, then the third row |
| Providers.Feed | elevator_system_design/passenger_providers.py:19-23 | defines one row of the `for` loop: yield and advance while the row is later than `i`, then append the row |
| Providers.Fed | elevator_system_design/passenger_providers.py:14-23 | defines the `for` loop over the rows as `Feed` of each row in turn |
| Providers.Finish | elevator_system_design/passenger_providers.py:24-27 | defines the trailing `while` yielding empty batches up to the batch's time, then the final `yield passengers` |
| Providers.Grouped | elevator_system_design/passenger_providers.py:10-27 | defines every batch `csv_passenger_provider` yields: `Finish` after `Fed` |

## Left out

- Persistence (`state_persistence_strategy.persist`, elevator_system_design/elevator_controller.py:122, 133) is an I/O sink. It is not modelled. `ControllerObject.ElevatorController.Step` and `HandlePassengerRequests` omit the calls.
- Logging calls are not modelled. `print_stats` (console output) is not modelled.
- `random_uniform_floor_selection_passenger_provider` draws from numpy's random generator. It is not modelled.
- CSV text parsing (`DictReader`, `int()`) is not modelled. The grouper takes already-parsed `Passenger` rows.
- `HistoricalDistributionIdleStrategy` relies on floating-point `np.quantile`. It is not modelled.
- The existing-stop preference strategy is not part of this model. Only the queries it would use are modelled: `Elevators.DistanceFrom` and `Elevators.HasTargetWithDirection`.
- The older `elevator_controller/` package is not part of this model.
- ControllerObject.ElevatorController.HandlePassengerRequests: the two drain loops after the batch loop (elevator_system_design/elevator_controller.py:147-151) are left out. They have no termination measure. The second one never exits once a degenerate passenger arrived, because it compares delivered passengers with a total that includes no-action passengers.
- ControllerObject.SortedByRequestTime: ties in request time are broken by Python's set iteration order. That order is not modelled, so any earliest pending passenger may come first, and `Step` returns the order it used as a ghost value.
- ControllerObject.ElevatorController.constructor: starts every car on its idle target clamped into `[1, n_floors]`, the corrected behaviour (see Findings). The unclamped start is modelled by `Controller.StartedAsWritten`.
- ControllerObject.ElevatorController.PlaceRoster: places the cars with the same clamp, the corrected behaviour (see Findings).
- ControllerObject.ElevatorController.StartOnTargets: moves each car to its idle target clamped into `[1, n_floors]`, the corrected behaviour (see Findings).
- ControllerObject.ElevatorController.constructor: requires `n_floors >= 1`, and at least one elevator under the equal-spread strategy. Two failures of `__init__` are therefore not modelled. With no elevators and the equal-spread strategy, `__init__` raises `AssertionError` (elevator_system_design/strategies/idle.py:40, called from elevator_system_design/elevator_controller.py:74). With `n_floors <= 0` and at least one elevator, the buckets are empty lists, so the first `step` raises `IndexError` (elevator_system_design/elevator_controller.py:105).
- ControllerObject.ElevatorController.constructor: the persistence argument is not modelled. `num_floors`, which the source declares but never assigns, is a ghost field holding `n_floors`, read only by contracts.
- Summaries.Mean: the float division is a `real` division, so float rounding is not modelled.
- Idle.RoundHalfEven: Python's `round` of a float is an exact integer half-to-even rounding of `(2i + 1) n / 2k`. Float error in computing `(i + 0.5) * n / k` is not modelled.
- Idle.PositionEqualSpread: the two `assert`s return `false`, with nothing changed, where Python raises `AssertionError`.
- Controller.RequestOk: the controller methods require passengers whose floors lie in the building, which the source assumes but does not check. Outside the building Python behaves in two ways that are not modelled. A source floor in `[1 - n_floors, 0]` gives a negative index, so the passenger is appended to a higher floor's bucket (elevator_system_design/elevator_controller.py:95). A source floor above `n_floors` or below `1 - n_floors` raises `IndexError` there, after `assign` (elevator_system_design/elevator_controller.py:94) has already changed the car.
- The controller's `pending_passengers` is a class attribute shared by all controllers. Each controller here has its own set.
- Integers are unbounded, as Python's are. `sys.maxsize` appears only as the starting minimum of a summary and the directional strategy's starting distance.

## Findings

| source | as written | input that shows it | evidently intended | confidence | as-written member | corrected member |
|---|---|---|---|---|---|---|
| elevator_system_design/elevator_controller.py:74-76 | `__init__` sets `current_floor = idle_target`. The idle strategies can give 0: equal spread rounds 0.5 down to 0 when `n_floors == n_elevators`, and middle floor gives `1 // 2 = 0` in a one-floor building. A car on floor 0 makes `step` read bucket `-1`, which Python takes as the top floor's bucket, and `embark` then raises `InvalidEmbarkRequest` | 2 elevators, 2 floors, equal spread, closest-empty assignment; two passengers from floor 2 to floor 1 at time 0, then one `step` | every car starts on a floor of the building (the target clamped into `[1, n_floors]`, as `move` clamps floors) | not executed | Controller.AsWrittenFirstStepRaises | Controller.StartedOnFloorOne |
