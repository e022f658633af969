// Numeric conversions shared by the Python parts of the model.
module Numbers {

  /** Python's `int(x)` on a float: truncation toward zero. */
  function Trunc(x: real): (r: int)
    ensures 0.0 <= x ==> r as real <= x < r as real + 1.0
    ensures x < 0.0 ==> r as real - 1.0 < x <= r as real
  {
    if 0.0 <= x then x.Floor else -((-x).Floor)
  }

  /** Truncation never moves a value away from zero and keeps its sign. */
  lemma {:induction false} TruncTowardZero(x: real)
    ensures 0.0 <= x ==> 0 <= Trunc(x) && Trunc(x) as real <= x
    ensures x < 0.0 ==> Trunc(x) <= 0 && x <= Trunc(x) as real
    ensures Trunc(-x) == -Trunc(x)
  {
  }

  /** Integral values are kept exactly. */
  lemma {:induction false} TruncOfInt(n: int)
    ensures Trunc(n as real) == n
  {
  }

  function Min(a: int, b: int): int
  {
    if a <= b then a else b
  }
}
