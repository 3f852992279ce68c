/** The roundings of Python's round and ceil. */
module Rounding {
  /** To the nearest integer, halves to the even neighbour. */
  function RoundHalfEven(x: real): (n: int)
    ensures x - 0.5 <= n as real <= x + 0.5
  {
    var floor := x.Floor;
    var rest := x - floor as real;
    if rest < 0.5 || (rest == 0.5 && floor % 2 == 0) then floor else floor + 1
  }

  function Ceil(x: real): (c: int)
    ensures c as real - 1.0 < x <= c as real
  {
    -((-x).Floor)
  }

  function MaxReal(a: real, b: real): real {
    if b > a then b else a
  }

  lemma RoundMonotone(x: real, y: real)
    requires x <= y
    ensures RoundHalfEven(x) <= RoundHalfEven(y)
  {
  }

  lemma RoundOfInteger(n: int)
    ensures RoundHalfEven(n as real) == n
  {
  }
}
