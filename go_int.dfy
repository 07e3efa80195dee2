/**
 * Go's built-in `int` on a 64-bit platform. Go's integers are two's
 * complement and overflow silently, so `nextID++` on the largest value
 * yields the smallest one.
 */
module GoInt {

  const TwoTo64: int := 0x1_0000_0000_0000_0000
  const MinInt64: int := -0x8000_0000_0000_0000
  const MaxInt64: int := 0x7FFF_FFFF_FFFF_FFFF

  type Int64 = x: int | -0x8000_0000_0000_0000 <= x <= 0x7FFF_FFFF_FFFF_FFFF

  /** The Int64 that an unbounded integer denotes in two's complement:
      the one value in range that is congruent to it modulo 2^64. */
  function Wrap(n: int): (r: Int64)
    ensures (r - n) % TwoTo64 == 0
    ensures MinInt64 <= n <= MaxInt64 ==> r == n
    ensures n == MaxInt64 + 1 ==> r == MinInt64
  {
    (n - MinInt64) % TwoTo64 + MinInt64
  }

  /** `x++` on a Go `int`. */
  function Inc(x: Int64): (r: Int64)
    ensures x < MaxInt64 ==> r == x + 1
    ensures x == MaxInt64 ==> r == MinInt64
  {
    Wrap(x + 1)
  }

  /** The position of `v` in the order in which a counter started at 1 and
      advanced by Inc visits the Int64 values: 1, 2, ..., MaxInt64,
      MinInt64, ..., -1, 0. */
  function Offset(v: Int64): (r: nat)
    ensures r < TwoTo64
  {
    if v >= 1 then v - 1 else v - 1 + TwoTo64
  }

  /** Advancing the counter moves it one place along that order, except
      from 0, the last place, where it starts over at 1. */
  lemma OffsetOfInc(x: Int64)
    ensures x != 0 ==> Offset(Inc(x)) == Offset(x) + 1
    ensures x == 0 ==> Inc(x) == 1 && Offset(Inc(x)) == 0
  {
  }

}
