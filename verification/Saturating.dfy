/** Bounded integers of the runtime and the saturating operations on them. */
module Saturating {

  const U32_MAX: nat := 0xFFFF_FFFF
  const U64_MAX: nat := 0xFFFF_FFFF_FFFF_FFFF
  const U128_MAX: nat := 0xFFFF_FFFF_FFFF_FFFF_FFFF_FFFF_FFFF_FFFF

  type uint8 = x: int | 0 <= x <= 0xFF
  type uint32 = x: int | 0 <= x <= U32_MAX
  type uint64 = x: int | 0 <= x <= U64_MAX
  type uint128 = x: int | 0 <= x <= U128_MAX

  function Min(a: int, b: int): int {
    if a <= b then a else b
  }

  function SatAdd(a: uint64, b: uint64): uint64 {
    Min(a + b, U64_MAX)
  }

  function SatSub(a: uint64, b: uint64): uint64 {
    if a < b then 0 else a - b
  }

  function SatMul(a: uint64, b: uint64): uint64 {
    Min(a * b, U64_MAX)
  }

  function SatMul128(a: uint128, b: uint128): uint128 {
    Min(a * b, U128_MAX)
  }

  /** Addition of `u32` values in a build without overflow checks. */
  function WrapAdd32(a: uint32, b: uint32): uint32 {
    (a + b) % (U32_MAX + 1)
  }

  /** Addition of `u64` values in a build without overflow checks. */
  function WrapAdd64(a: uint64, b: uint64): uint64 {
    (a + b) % (U64_MAX + 1)
  }
}

/** The usual optional and fallible results. */
module Outcomes {

  datatype Option<+T> = None | Some(value: T)

  datatype Result<+T, +E> = Success(value: T) | Failure(error: E)
}
