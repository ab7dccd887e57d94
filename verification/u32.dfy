/**
 * Unsigned 32-bit arithmetic as the rate managers perform it on their
 * `uint32_t` counters: increments wrap to 0 past the maximum and
 * decrements of 0 wrap to the maximum.
 */
module U32 {

  const LIMIT: int := 0x1_0000_0000

  type u32 = x: int | 0 <= x < 0x1_0000_0000

  /** `x++` on a `uint32_t`. */
  function Inc(x: u32): u32 {
    if x + 1 == LIMIT then 0 else x + 1
  }

  /** `x - 1` on a `uint32_t`. */
  function Dec(x: u32): u32 {
    if x == 0 then LIMIT - 1 else x - 1
  }

  /** Decrementing undoes incrementing, wrap-around included. */
  lemma DecInc(x: u32)
    ensures Dec(Inc(x)) == x
  {
  }

  /**
   * The parity test `(x - 1) % 2 == 1` evaluated in `uint32_t` is exactly
   * "x is even"; for `x == 0` the subtraction wraps to the odd maximum.
   */
  lemma DecOddIffEven(x: u32)
    ensures Dec(x) % 2 == 1 <==> x % 2 == 0
  {
  }
}
