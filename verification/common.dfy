/**
 * Machine integers and the Option wrapper shared by every module.
 *
 * The on-chain program is written in Rust, whose integers have fixed widths.
 * Dafny integers are unbounded, so each width is a subset type here and every
 * place where the Rust code could overflow is written out explicitly.
 */
module Common {

  const U8_LIMIT: int := 0x100
  const U64_LIMIT: int := 0x1_0000_0000_0000_0000
  const I64_MIN: int := -0x8000_0000_0000_0000
  const I64_MAX: int := 0x7FFF_FFFF_FFFF_FFFF

  type U8 = x: int | 0 <= x < U8_LIMIT
  type U64 = x: int | 0 <= x < U64_LIMIT
  type I64 = x: int | I64_MIN <= x <= I64_MAX

  datatype Option<+T> = None | Some(value: T)

  /** Rust's `u64::wrapping_add`: the sum modulo 2^64. */
  function WrappingAddU64(a: U64, b: U64): (r: U64)
    ensures r < a + b ==> r == a + b - U64_LIMIT
    ensures a + b < U64_LIMIT ==> r == a + b
  {
    (a + b) % U64_LIMIT
  }

  /** Rust's `x as u64` for an `i64`: the two's-complement bits read as unsigned. */
  function I64AsU64(x: I64): (r: U64)
    ensures 0 <= x ==> r == x
    ensures x < 0 ==> r == x + U64_LIMIT
  {
    x % U64_LIMIT
  }

  /**
   * Rust's `+` on `u8` with overflow checks on: `None` stands for the panic,
   * which aborts the whole transaction.
   */
  function CheckedAddU8(a: U8, b: U8): (r: Option<U8>)
    ensures r.Some? <==> a + b < U8_LIMIT
    ensures r.Some? ==> r.value == a + b
  {
    if a + b < U8_LIMIT then Some(a + b) else None
  }

  /** Rust's `+` on `u64` with overflow checks on (`None` is the panic). */
  function CheckedAddU64(a: U64, b: U64): (r: Option<U64>)
    ensures r.Some? <==> a + b < U64_LIMIT
    ensures r.Some? ==> r.value == a + b
  {
    if a + b < U64_LIMIT then Some(a + b) else None
  }
}
