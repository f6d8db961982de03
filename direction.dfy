/** The direction of travel of an elevator or a passenger. */
module Directions {

  datatype Direction = Up | Down | Idle

  /** The enum's numeric value, used as a multiplier on floor numbers. */
  function Value(d: Direction): int
  {
    match d
    case Up => 1
    case Down => -1
    case Idle => 0
  }

  /** `Direction.reverse`: UP and DOWN swap, IDLE stays IDLE. */
  function Reverse(d: Direction): (r: Direction)
    ensures Value(r) == -Value(d)
    ensures r == Idle <==> d == Idle
  {
    match d
    case Up => Down
    case Down => Up
    case Idle => Idle
  }

  lemma ReverseInvolutive(d: Direction)
    ensures Reverse(Reverse(d)) == d
  {
  }

  /** The numeric values are exactly 1, -1 and 0, and they identify the direction. */
  lemma ValueInjective(d: Direction, e: Direction)
    ensures Value(d) in {-1, 0, 1}
    ensures Value(d) == Value(e) ==> d == e
  {
  }

  /** `x * d.value`: a floor signed by a direction. Written by cases so that
      the solver sees no product of two unknowns. */
  function Scale(x: int, d: Direction): int
  {
    match d
    case Up => x
    case Down => -x
    case Idle => 0
  }

  lemma ScaleIsProduct(x: int, d: Direction)
    ensures Scale(x, d) == x * Value(d)
    ensures Scale(x, Reverse(d)) == x * -Value(d)
  {
  }
}
