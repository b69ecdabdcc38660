/**
 * Fixed-width integers, Option and Result, and the checked arithmetic of
 * Rust's `u64` that the reading layer routes every offset computation through.
 */
module Base {

  const U64_MAX: int := 0xFFFF_FFFF_FFFF_FFFF

  /** A byte (`u8`). */
  type u8 = x: int | 0 <= x < 0x100

  /** A 32-bit quantity read from the file (`u32`). */
  type u32 = x: int | 0 <= x <= 0xFFFF_FFFF

  /** A 64-bit file offset or length (`u64`). */
  type u64 = x: int | 0 <= x <= 0xFFFF_FFFF_FFFF_FFFF

  datatype Option<+T> = None | Some(value: T)

  datatype Result<+T, +E> = Ok(value: T) | Err(error: E)

  function Min(a: int, b: int): int
  {
    if a <= b then a else b
  }

  /** `a.checked_add(b as u64)`: the sum when it fits in 64 bits, `None` when it would wrap. */
  function CheckedAdd(a: u64, b: nat): (r: Option<u64>)
    ensures r.Some? <==> a + b <= U64_MAX
    ensures r.Some? ==> r.value == a + b
  {
    if a + b <= U64_MAX then Some(a + b) else None
  }

  /** `a.checked_sub(b)`: the difference when it is not negative, `None` otherwise. */
  function CheckedSub(a: u64, b: u64): (r: Option<u64>)
    ensures r.Some? <==> b <= a
    ensures r.Some? ==> r.value + b == a
  {
    if b <= a then Some(a - b) else None
  }
}
