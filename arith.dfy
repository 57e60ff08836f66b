/**
 * Integer helpers the components' contracts share: the minimum and maximum
 * of two integers.
 */
module Arith {

  /** The smaller of a and b. */
  function Min(a: int, b: int): (r: int)
    ensures r <= a && r <= b && (r == a || r == b)
  {
    if a <= b then a else b
  }

  /** The larger of a and b. */
  function Max(a: int, b: int): (r: int)
    ensures r >= a && r >= b && (r == a || r == b)
  {
    if a >= b then a else b
  }
}
