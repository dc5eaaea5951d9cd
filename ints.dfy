/** The fixed-width Rust integer types the core uses, as ranges of unbounded integers. */
module Ints {
  const TWO_8: int := 0x100
  const TWO_16: int := 0x1_0000
  const TWO_31: int := 0x8000_0000
  const TWO_32: int := 0x1_0000_0000

  const I32_MIN: int := -TWO_31
  const I32_MAX: int := TWO_31 - 1
  const U32_MAX: int := TWO_32 - 1

  /** u8 */
  type Byte = b: int | 0 <= b < 0x100
  /** u16 */
  type U16 = n: int | 0 <= n < 0x1_0000
  /** std::num::NonZeroU16 */
  type NonZeroU16 = n: int | 1 <= n < 0x1_0000 witness 1
  /** u32 */
  type U32 = n: int | 0 <= n < 0x1_0000_0000
  /** std::num::NonZeroU32 */
  type NonZeroU32 = n: int | 1 <= n < 0x1_0000_0000 witness 1
  /** i32 */
  type I32 = n: int | -0x8000_0000 <= n < 0x8000_0000

  /** `Ord::max` */
  function Max(a: int, b: int): int { if a >= b then a else b }
  /** `Ord::min` */
  function Min(a: int, b: int): int { if a <= b then a else b }
}
