/** Rust's fixed-width integers and the `as` casts between `u64` and `i64`.
    A cast keeps the 64 bits and reads them in the other type, which is
    arithmetic modulo 2^64. */
module Casts {

  const TWO_64: int := 0x1_0000_0000_0000_0000

  type u64 = x: int | 0 <= x < 0x1_0000_0000_0000_0000
  type i64 = x: int | -0x8000_0000_0000_0000 <= x < 0x8000_0000_0000_0000

  const U64_MAX: u64 := 0xFFFF_FFFF_FFFF_FFFF
  const I64_MAX: i64 := 0x7FFF_FFFF_FFFF_FFFF

  /** `x as i64` for a `u64` x: the one `i64` congruent to x modulo 2^64. */
  function U64ToI64(x: u64): (r: i64)
    ensures (r - x) % TWO_64 == 0
    ensures r < 0 <==> x > I64_MAX
  {
    if x <= I64_MAX then x else x - TWO_64
  }

  /** `i as u64` for an `i64` i: the one `u64` congruent to i modulo 2^64. */
  function I64ToU64(i: i64): (r: u64)
    ensures (r - i) % TWO_64 == 0
    ensures 0 <= i ==> r == i
  {
    i % TWO_64
  }

  /** Reading a `u64` as `i64` and back gives the same number. */
  lemma U64RoundTrip(x: u64)
    ensures I64ToU64(U64ToI64(x)) == x
  {
  }

  /** Reading an `i64` as `u64` and back gives the same number. */
  lemma I64RoundTrip(i: i64)
    ensures U64ToI64(I64ToU64(i)) == i
  {
  }
}
