/** The integer types and casts of the Rust code, with Rust's semantics written out. */
module Numeric {

  /** Rust `u32`. */
  type U32 = n: int | 0 <= n < 0x1_0000_0000

  /** Rust `u8`. */
  type U8 = n: int | 0 <= n < 0x100

  const I32Min: int := -0x8000_0000
  const I32Max: int := 0x7fff_ffff

  /** `n as i32` for a `u32` n: the same 32 bits read as a two's-complement number. */
  function U32AsI32(n: U32): (r: int)
    ensures I32Min <= r <= I32Max
    ensures (n - r) % 0x1_0000_0000 == 0
    ensures n <= I32Max ==> r == n
    ensures n > I32Max ==> r < 0
  {
    if n <= I32Max then n else n - 0x1_0000_0000
  }

  /** `x as u8` for a float x: rounds toward zero and saturates at 0 and 255. */
  function FloatToU8(x: real): (b: U8)
    ensures x < 1.0 ==> b == 0
    ensures x >= 255.0 ==> b == 255
    ensures 0.0 <= x < 256.0 ==> b as real <= x < b as real + 1.0
  {
    if x < 1.0 then 0 else if x >= 255.0 then 255 else x.Floor
  }
}
