/** Integer addition on Go's 64-bit `int`. */
module Integers {
  const TwoTo64: int := 0x1_0000_0000_0000_0000
  const MinInt64: int := -0x8000_0000_0000_0000
  const MaxInt64: int := 0x7fff_ffff_ffff_ffff

  /** Go's `int` on a 64-bit platform. */
  type Int64 = x: int | MinInt64 <= x <= MaxInt64

  /** Two's-complement wrap-around of an arbitrary integer into the 64-bit range. */
  function Wrap(n: int): (w: Int64)
    ensures (w - n) % TwoTo64 == 0
    ensures MinInt64 <= n <= MaxInt64 ==> w == n
  {
    (n - MinInt64) % TwoTo64 + MinInt64
  }

  /** The sum of two Go ints: the mathematical sum when it fits in 64 bits, and otherwise the
      value congruent to it modulo 2^64. */
  function Add(x: Int64, y: Int64): (sum: Int64)
    ensures MinInt64 <= x + y <= MaxInt64 ==> sum == x + y
    ensures x + y > MaxInt64 ==> sum == x + y - TwoTo64
    ensures x + y < MinInt64 ==> sum == x + y + TwoTo64
  {
    Wrap(x + y)
  }

  /** Addition is commutative, and adding zero changes nothing, even with wrap-around. */
  lemma AddCommutesWithIdentity(x: Int64, y: Int64)
    ensures Add(x, y) == Add(y, x)
    ensures Add(x, 0) == x
  {
  }

  /** The adder test: 1 + 1 is 2; and the largest int plus one wraps to the smallest. */
  lemma AdderExamples()
    ensures Add(1, 1) == 2
    ensures Add(MaxInt64, 1) == MinInt64
  {
  }
}
