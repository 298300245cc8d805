/** The machine integers of the value types, as ranges of the unbounded integers. */
module Integers {
  const I64_MAX := 0x7fff_ffff_ffff_ffff
  const I128_LIMIT := 0x8000_0000_0000_0000_0000_0000_0000_0000

  type i16 = n: int | -0x8000 <= n < 0x8000
  type i32 = n: int | -0x8000_0000 <= n < 0x8000_0000
  type i64 = n: int | -I64_MAX - 1 <= n <= I64_MAX
  type i128 = n: int | -I128_LIMIT <= n < I128_LIMIT
  type u32 = n: int | 0 <= n < 0x1_0000_0000

  /** `saturating_add` on `i64`. */
  function SaturatingAdd(x: i64, y: i64): (r: i64)
    ensures -I64_MAX - 1 <= x + y <= I64_MAX ==> r == x + y
  {
    if x + y > I64_MAX then I64_MAX
    else if x + y < -I64_MAX - 1 then -I64_MAX - 1
    else x + y
  }
}
