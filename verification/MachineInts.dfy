/** The machine integers of the programs, as ranges of the mathematical integers. */
module MachineInts {
  import opened Wrappers

  const U8_MAX: nat := 0xFF
  const U16_MAX: nat := 0xFFFF
  const U32_MAX: nat := 0xFFFF_FFFF
  const U64_MAX: nat := 0xFFFF_FFFF_FFFF_FFFF
  const U128_MAX: nat := 0xFFFF_FFFF_FFFF_FFFF_FFFF_FFFF_FFFF_FFFF
  const I64_MAX: nat := 0x7FFF_FFFF_FFFF_FFFF
  const I64_MIN: int := -0x8000_0000_0000_0000

  type u8 = x: int | 0 <= x <= U8_MAX
  type u16 = x: int | 0 <= x <= U16_MAX
  type u32 = x: int | 0 <= x <= U32_MAX
  type u64 = x: int | 0 <= x <= U64_MAX
  type u128 = x: int | 0 <= x <= U128_MAX
  type i64 = x: int | I64_MIN <= x <= I64_MAX

  /** `u64::try_from` and the outcome of a checked 64-bit operation. */
  function ToU64(x: int): Option<u64> {
    if 0 <= x <= U64_MAX then Some(x) else None
  }

  function ToU32(x: int): Option<u32> {
    if 0 <= x <= U32_MAX then Some(x) else None
  }

  function ToI64(x: int): Option<i64> {
    if I64_MIN <= x <= I64_MAX then Some(x) else None
  }

  /** The cast `x as u128`: a negative value wraps around. */
  function AsU128(x: i64): u128 {
    if x < 0 then U128_MAX + 1 + x else x
  }

  /** The cast `x as i64`: the upper half of the range wraps around. */
  function AsI64(x: u64): i64 {
    if x <= I64_MAX then x else x - U64_MAX - 1
  }

  function Min(a: int, b: int): int {
    if a <= b then a else b
  }

  function Max(a: int, b: int): int {
    if a >= b then a else b
  }
}
