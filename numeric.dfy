/** The fixed-width integers of the on-chain program, as subset types of `int`.
    Every arithmetic step of the model is done on `int` and then checked
    against these bounds, the way Rust's `checked_*` calls and overflow
    checks do. */
module Numeric {

  const U64_MAX: int := 0xFFFF_FFFF_FFFF_FFFF
  const U128_MAX: int := 0xFFFF_FFFF_FFFF_FFFF_FFFF_FFFF_FFFF_FFFF
  const I128_MAX: int := 0x7FFF_FFFF_FFFF_FFFF_FFFF_FFFF_FFFF_FFFF
  const I128_MIN: int := -0x8000_0000_0000_0000_0000_0000_0000_0000

  type u64 = x: int | 0 <= x <= U64_MAX
  type u128 = x: int | 0 <= x <= U128_MAX
  type i128 = x: int | I128_MIN <= x <= I128_MAX

  /** Rust's `x as u64` on an unsigned value: keeps the low 64 bits. */
  function AsU64(x: nat): (r: u64)
    ensures x <= U64_MAX ==> r == x
    ensures r <= x
    ensures (x - r) % (U64_MAX + 1) == 0
  {
    x % (U64_MAX + 1)
  }
}
