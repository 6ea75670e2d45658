/**
 Shared vocabulary: optional values, results and fixed-width unsigned integers.

 Integers are mathematical. Rust's `u8`, `u16` and `u64` are the subset types
 below; wherever the SDK wraps, truncates or saturates, the model says so.
 */
module Common {

  datatype Option<+T> = None | Some(value: T)

  datatype Result<+T, +E> = Ok(value: T) | Err(error: E)

  const U16_SIZE := 0x1_0000
  const U64_SIZE := 0x1_0000_0000_0000_0000
  const U64_MAX := 0xFFFF_FFFF_FFFF_FFFF

  type u8 = x: int | 0 <= x < 0x100
  type u16 = x: int | 0 <= x < 0x1_0000
  type u64 = x: int | 0 <= x < 0x1_0000_0000_0000_0000

  function Max(a: nat, b: nat): (m: nat)
    ensures m >= a && m >= b && (m == a || m == b)
  {
    if a < b then b else a
  }

  function Min(a: nat, b: nat): (m: nat)
    ensures m <= a && m <= b && (m == a || m == b)
  {
    if a < b then a else b
  }
}
