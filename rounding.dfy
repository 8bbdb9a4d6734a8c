/** Python's built-in `round` on reals: `round(x)` to the nearest integer
    and `round(x, 3)` to three decimals, halves going to the even
    neighbour. Binary floating point is not modelled, so a value is
    rounded exactly as its real number would be. */
module Rounding {

  /** Python's `round` on a real: to the nearest integer, halves to the
      even neighbour. */
  function RoundHalfEven(x: real): (n: int)
    ensures x - 0.5 <= n as real <= x + 0.5
  {
    var f := x.Floor;
    var d := x - f as real;
    if d < 0.5 then f
    else if d > 0.5 then f + 1
    else if f % 2 == 0 then f else f + 1
  }

  /** A whole number rounds to itself. */
  lemma RoundWhole(k: int)
    ensures RoundHalfEven(k as real) == k
  {
  }

  /** `round(x, 3)`: the nearest multiple of 0.001. */
  function RoundTo3(x: real): (r: real)
    ensures x - 0.0005 <= r <= x + 0.0005
  {
    RoundHalfEven(x * 1000.0) as real / 1000.0
  }

  /** Rounding to three decimals a value already rounded to three decimals
      changes nothing. */
  lemma RoundTo3Idempotent(x: real)
    ensures RoundTo3(RoundTo3(x)) == RoundTo3(x)
  {
    var n := RoundHalfEven(x * 1000.0);
    assert RoundTo3(x) * 1000.0 == n as real;
    RoundWhole(n);
  }
}
