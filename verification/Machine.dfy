/** Unsigned 64-bit arithmetic as the service uses it, and the usual Option type. */
module Machine {
  const U64_MAX: int := 0xFFFF_FFFF_FFFF_FFFF

  type u64 = x: int | 0 <= x <= U64_MAX

  const U32_MAX: int := 0xFFFF_FFFF

  type u32 = x: int | 0 <= x <= U32_MAX

  const I32_MAX: int := 0x7FFF_FFFF

  datatype Option<+T> = None | Some(value: T)

  function SatAdd(a: u64, b: u64): u64 {
    if a + b <= U64_MAX then a + b else U64_MAX
  }

  function SatSub(a: u64, b: u64): u64 {
    if b <= a then a - b else 0
  }

  function SatMul(a: u64, b: u64): u64 {
    if a * b <= U64_MAX then a * b else U64_MAX
  }

  function Min(a: nat, b: nat): nat {
    if a <= b then a else b
  }
}
