/** Shared vocabulary: optional and fallible results, and the integer widths the store relies on. */
module Basics {
  datatype Option<+T> = None | Some(value: T)

  datatype Result<+T, +E> = Ok(value: T) | Err(error: E)

  datatype Unit = Unit

  const U64_LIMIT: int := 0x1_0000_0000_0000_0000
  const U32_LIMIT: int := 0x1_0000_0000

  type u64 = x: int | 0 <= x < U64_LIMIT
  type u32 = x: int | 0 <= x < U32_LIMIT
  type u8 = x: int | 0 <= x < 256

  /** A UTF-8 string, as the bytes that Rust's `String` order compares. */
  type Str = seq<u8>

  /** `u64::saturating_add`. */
  function SaturatingAdd(a: u64, b: u64): (r: u64)
    ensures a + b < U64_LIMIT ==> r == a + b
    ensures a + b >= U64_LIMIT ==> r == U64_LIMIT - 1
  {
    if a + b < U64_LIMIT then a + b else U64_LIMIT - 1
  }

  function Max(a: nat, b: nat): nat {
    if a < b then b else a
  }

  function Min(a: nat, b: nat): nat {
    if a < b then a else b
  }
}
