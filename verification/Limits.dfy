/** Bounds of the fixed-width integers that host and chain use. */
module Limits {
  const I32_MIN: int := -0x8000_0000
  const I32_MAX: int := 0x7FFF_FFFF
  const U32_MAX: int := 0xFFFF_FFFF
  const I64_MAX: int := 0x7FFF_FFFF_FFFF_FFFF
  const U64_MAX: int := 0xFFFF_FFFF_FFFF_FFFF
}
