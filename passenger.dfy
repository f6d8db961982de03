/** A passenger request: an immutable value compared field by field. */
module Passengers {
  import opened Directions

  datatype Passenger = Passenger(id: string, sourceFloor: int, destinationFloor: int, requestTime: int)

  /** The direction the passenger wants to travel: DOWN when the source is above
      the destination, UP otherwise (so also UP when both floors are equal). */
  function Dir(p: Passenger): (d: Direction)
    ensures d != Idle
    ensures d == Down <==> p.sourceFloor > p.destinationFloor
    ensures Value(d) * (p.destinationFloor - p.sourceFloor) >= 0
  {
    if p.sourceFloor > p.destinationFloor then Down else Up
  }

  /** A request whose source and destination coincide goes UP. */
  lemma DegenerateGoesUp(p: Passenger)
    requires p.sourceFloor == p.destinationFloor
    ensures Dir(p) == Up
  {
  }
}
