/**
 * Python's built-in round() applied to the quotient of two integers.
 * Python rounds to the nearest integer and breaks exact halves towards the even one.
 * The quotient is taken exactly here; see README for the floating-point caveat.
 */
module PyRound {

  /** round(a / b) for a >= 0 and b > 0, with ties to even. */
  function RoundHalfEven(a: int, b: int): (r: int)
    requires a >= 0 && b > 0
    // r is a nearest integer to a/b: |a/b - r| <= 1/2
    ensures b * (2 * r - 1) <= 2 * a <= b * (2 * r + 1)
    // on an exact half the even neighbour is chosen
    ensures (2 * a == b * (2 * r - 1) || 2 * a == b * (2 * r + 1)) ==> r % 2 == 0
  {
    var q, rem := a / b, a % b;
    assert 2 * a == b * (2 * q) + 2 * rem;
    if 2 * rem < b then
      q
    else if 2 * rem > b then
      assert b * (2 * (q + 1) - 1) == b * (2 * q) + b;
      q + 1
    else if q % 2 == 0 then
      q
    else
      assert b * (2 * (q + 1) - 1) == b * (2 * q) + b;
      q + 1
  }

  /**
   * The scheduler's test "round(N/M) > 1" is the exact integer comparison 2N >= 3M:
   * a ratio of exactly 3/2 rounds to 2, anything below it rounds to 1 or 0.
   */
  lemma RoundAboveOne(a: int, b: int)
    requires a >= 0 && b > 0
    ensures RoundHalfEven(a, b) > 1 <==> 2 * a >= 3 * b
  {
    NearestAboveOne(a, b, RoundHalfEven(a, b));
  }

  /** The same comparison for any nearest integer r to a/b that takes halves to even. */
  lemma NearestAboveOne(a: int, b: int, r: int)
    requires b > 0
    requires b * (2 * r - 1) <= 2 * a <= b * (2 * r + 1)
    requires (2 * a == b * (2 * r - 1) || 2 * a == b * (2 * r + 1)) ==> r % 2 == 0
    ensures r > 1 <==> 2 * a >= 3 * b
  {
    if r > 1 {
      assert b * (2 * r - 1) >= b * 3;
    } else {
      assert b * (2 * r + 1) <= b * 3;
    }
  }
}
