/** Small shared definitions: optional values and Python's integer helpers. */
module Basics {

  /** Python's `Optional[T]`. */
  datatype Option<+T> = None | Some(value: T)

  /** `sys.maxsize` on a 64-bit CPython, used as an "infinite" starting value. */
  const MaxSize: int := 9223372036854775807

  function Abs(x: int): (r: int)
    ensures r >= 0 && (r == x || r == -x)
  {
    if x < 0 then -x else x
  }

  function Min(a: int, b: int): (r: int)
    ensures r <= a && r <= b && (r == a || r == b)
  {
    if a <= b then a else b
  }

  function Max(a: int, b: int): (r: int)
    ensures r >= a && r >= b && (r == a || r == b)
  {
    if a >= b then a else b
  }
}
