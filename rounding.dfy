/** Python's `round(n / 1000)` on integer milliseconds: round half to even. */
module Rounding {

  /** `round(n / 1000)`: the whole number of seconds nearest to n ms, the even
      one when n lies exactly half-way. */
  function RoundSeconds(n: int): (r: int)
    ensures -500 <= r * 1000 - n <= 500
    ensures (r * 1000 - n == 500 || r * 1000 - n == -500) ==> r % 2 == 0
  {
    var q, m := n / 1000, n % 1000;
    if m < 500 then q
    else if m > 500 then q + 1
    else if q % 2 == 0 then q else q + 1
  }

  /** The contract above pins the result down: no other whole number of seconds
      satisfies it. */
  lemma RoundSecondsUnique(n: int, r: int)
    requires -500 <= r * 1000 - n <= 500
    requires (r * 1000 - n == 500 || r * 1000 - n == -500) ==> r % 2 == 0
    ensures r == RoundSeconds(n)
  {
  }

  lemma RoundSecondsNonNegative(n: int)
    requires n >= 0
    ensures RoundSeconds(n) >= 0
  {
  }
}
