/** Fixed-width integers, truncating division and the two result wrappers shared by every module.
    Rust's checked operations are modelled by asking whether the exact result fits the width. */
module Machine {

  const I64_MAX := 0x7FFF_FFFF_FFFF_FFFF
  const I64_MIN := -0x8000_0000_0000_0000
  const U64_MAX := 0xFFFF_FFFF_FFFF_FFFF
  const I128_MAX := 0x7FFF_FFFF_FFFF_FFFF_FFFF_FFFF_FFFF_FFFF
  const I128_MIN := -0x8000_0000_0000_0000_0000_0000_0000_0000
  const U128_MAX := 0xFFFF_FFFF_FFFF_FFFF_FFFF_FFFF_FFFF_FFFF

  type i64 = x: int | I64_MIN <= x <= I64_MAX
  type u64 = x: int | 0 <= x <= U64_MAX
  type i128 = x: int | I128_MIN <= x <= I128_MAX
  type u128 = x: int | 0 <= x <= U128_MAX

  datatype Option<+T> = None | Some(value: T)

  datatype Result<+T, +E> = Ok(value: T) | Err(error: E)

  predicate FitsI64(x: int) { I64_MIN <= x <= I64_MAX }

  predicate FitsI128(x: int) { I128_MIN <= x <= I128_MAX }

  function Abs(x: int): nat { if x < 0 then -x else x }

  function Sign(x: int): int { if x < 0 then -1 else if x == 0 then 0 else 1 }

  function Min(x: int, y: int): int { if x <= y then x else y }

  /** `i64::saturating_sub`. */
  function SaturatingSub(x: i64, y: i64): i64 {
    if x - y > I64_MAX then I64_MAX else if x - y < I64_MIN then I64_MIN else x - y
  }

  /** `as i64` applied to a value in `0..=2^63`: the upper end wraps to the minimum. */
  function WrapToI64(x: int): i64
    requires 0 <= x <= I64_MAX + 1
  {
    if x > I64_MAX then I64_MIN else x
  }

  /** Division as Rust performs it: the quotient is rounded toward zero. */
  function TruncDiv(x: int, y: int): int
    requires y > 0
  {
    if x >= 0 then x / y else -((-x) / y)
  }

  function TruncRem(x: int, y: int): int
    requires y > 0
  {
    x - y * TruncDiv(x, y)
  }
}
