/** The bounded integers of the source and the arithmetic the parts of the pipeline share. */
module Arithmetic {
  const U32_MAX: nat := 0xFFFF_FFFF
  const U64_MAX: nat := 0xFFFF_FFFF_FFFF_FFFF
  const I64_MAX: nat := 0x7FFF_FFFF_FFFF_FFFF
  const I64_MIN: int := -0x8000_0000_0000_0000

  type U32 = n: nat | n <= U32_MAX
  type U64 = n: nat | n <= U64_MAX

  function Min(a: int, b: int): int { if a <= b then a else b }

  function Max(a: int, b: int): int { if a <= b then b else a }

  /** Multiplication behind a name, for proofs that do not need its meaning. */
  function Times(a: int, b: int): int { a * b }

  function Distance(a: int, b: int): nat { if a <= b then b - a else a - b }

  /** `u32::saturating_add(1)`. */
  function SaturatingIncrement(n: U32): U32 { if n == U32_MAX then U32_MAX else n + 1 }
}
