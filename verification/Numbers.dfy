/** Small arithmetic that several components share. */
module Numbers {

  function Min(a: nat, b: nat): nat { if a <= b then a else b }

  /** The smaller of two integers of any sign. */
  function MinInt(a: int, b: int): int { if a <= b then a else b }

  function Pow2(n: nat): (r: nat)
    ensures r > 0
  {
    if n == 0 then 1 else 2 * Pow2(n - 1)
  }

  const TWO_62: int := 0x4000_0000_0000_0000
  const TWO_63: int := 0x8000_0000_0000_0000
  const TWO_64: int := 0x1_0000_0000_0000_0000

  /** The value of a 64-bit signed integer after wrap-around. */
  function Wrap(n: int): (w: int)
    ensures -TWO_63 <= w < TWO_63
    ensures -TWO_63 <= n < TWO_63 ==> w == n
  {
    (n + TWO_63) % TWO_64 - TWO_63
  }
}
