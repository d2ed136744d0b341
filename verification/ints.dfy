/** Machine integers of the on-chain program, written out over Dafny's unbounded `int`.

    The model assumes the program is built with Rust's overflow checks on (Anchor's
    default profile; the build profile is not part of this model), so an arithmetic
    result that leaves its type aborts the instruction; callers test `InU64` / `InI64` and turn a
    miss into an error value instead of assuming it away.
 */
module Ints {

  const U64_MAX: int := 0xFFFF_FFFF_FFFF_FFFF
  const I64_MIN: int := -0x8000_0000_0000_0000
  const I64_MAX: int := 0x7FFF_FFFF_FFFF_FFFF

  predicate InU64(x: int) { 0 <= x <= U64_MAX }
  predicate InI64(x: int) { I64_MIN <= x <= I64_MAX }

  type u64 = x: int | 0 <= x <= U64_MAX
  type i64 = x: int | I64_MIN <= x <= I64_MAX

  /** Rust's `/` on signed integers: the quotient is rounded toward zero, so the
      remainder takes the sign of the dividend (Dafny's own `/` is Euclidean). */
  function TruncDiv(a: int, b: int): (q: int)
    requires b > 0
    ensures a >= 0 ==> 0 <= a - q * b < b
    ensures a < 0 ==> -b < a - q * b <= 0
  {
    if a >= 0 then a / b else -((-a) / b)
  }

  /** Rust's saturating `as u64` conversion from a float whose integer part is `x`:
      the u64 nearest to `x`. */
  function SaturateU64(x: int): (r: u64)
    ensures InU64(x) ==> r == x
    ensures x < 0 ==> r == 0
    ensures x > U64_MAX ==> r == U64_MAX
  {
    if x < 0 then 0 else if x > U64_MAX then U64_MAX else x
  }
}
