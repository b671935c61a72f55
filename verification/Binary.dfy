/** Bytes as numbers, and powers of two. */
module Binary {
  type byte = x: int | 0 <= x < 256

  function Pow2(e: nat): (p: int)
    ensures p >= 1
  {
    if e == 0 then 1 else 2 * Pow2(e - 1)
  }
}
