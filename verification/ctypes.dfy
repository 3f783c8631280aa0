/** The C integer types of the sources, as ranges of unbounded integers. */
module CTypes {
  /** 32-bit signed `int`. */
  const IntMin: int := -0x8000_0000
  const IntMax: int := 0x7FFF_FFFF

  predicate IsInt32(x: int) {
    IntMin <= x <= IntMax
  }

  /** `u32` and `unsigned int` arithmetic wraps modulo 2^32. */
  const U32Modulus: nat := 0x1_0000_0000

  type U32 = x: int | 0 <= x < U32Modulus

  /** `size_t` arithmetic wraps modulo 2^64. */
  const SizeModulus: nat := 0x1_0000_0000_0000_0000

  /** The mathematical absolute value. */
  function Magnitude(x: int): int {
    if x < 0 then -x else x
  }
}
