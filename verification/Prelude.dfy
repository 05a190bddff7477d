/** Shared vocabulary: optional values, bytes, and the fixed-width integer
    arithmetic of the source (saturating where the source saturates). */
module Prelude {

  datatype Option<+T> = None | Some(value: T)

  datatype Result<+T, +E> = Ok(value: T) | Err(error: E)

  type byte = x: int | 0 <= x < 256

  const U32_MAX: int := 0xFFFF_FFFF
  const U64_MAX: int := 0xFFFF_FFFF_FFFF_FFFF

  type u32 = x: int | 0 <= x <= U32_MAX
  type u64 = x: int | 0 <= x <= U64_MAX

  function Min(a: int, b: int): int { if a <= b then a else b }

  function Max(a: int, b: int): int { if a <= b then b else a }

  /** `u64::saturating_sub` (also `usize` on a 64-bit host). */
  function SatSub(a: nat, b: nat): nat { if b <= a then a - b else 0 }

  /** `u64::saturating_add`. */
  function SatAdd(a: u64, b: u64): u64 { Min(a + b, U64_MAX) }

  /** `u64::saturating_mul`. */
  function SatMul(a: u64, b: u64): u64 {
    ProductNotNegative(a, b);
    if a * b <= U64_MAX then a * b else U64_MAX
  }

  /** `as u32` keeps the low 32 bits. */
  function AsU32(n: nat): u32 { if n <= U32_MAX then n else n % 0x1_0000_0000 }

  lemma ProductNotNegative(a: nat, b: nat)
    ensures 0 <= a * b
  {
  }
}
