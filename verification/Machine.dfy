/** Machine integers of the original program: ranges, saturation and truncating casts. */
module Machine {

  const I32_MAX: int := 0x7fff_ffff
  const I32_MIN: int := -0x8000_0000
  const U32_MAX: int := 0xffff_ffff
  const U64_MAX: int := 0xffff_ffff_ffff_ffff
  const I64_MAX: int := 0x7fff_ffff_ffff_ffff
  const I64_MIN: int := -0x8000_0000_0000_0000

  type Byte = x: int | 0 <= x < 256
  type I32 = x: int | I32_MIN <= x <= I32_MAX
  type U32 = x: int | 0 <= x <= U32_MAX
  type U64 = x: int | 0 <= x <= U64_MAX
  type I64 = x: int | I64_MIN <= x <= I64_MAX

  function Min(a: int, b: int): int {
    if a <= b then a else b
  }

  function Max(a: int, b: int): int {
    if a >= b then a else b
  }

  function Clamp(x: int, lo: int, hi: int): int
    requires lo <= hi
  {
    Max(lo, Min(x, hi))
  }

  function SatAddU64(a: U64, b: U64): U64 {
    Min(a + b, U64_MAX)
  }

  function SatMulU64(a: U64, b: U64): U64 {
    var product: nat := a * b;
    Min(product, U64_MAX)
  }

  function SatSubI32(a: I32, b: I32): I32 {
    Clamp(a - b, I32_MIN, I32_MAX)
  }

  /** Keeps the low 32 bits and reads them as a signed number. */
  function WrapI32(x: int): (r: I32)
    ensures I32_MIN <= x <= I32_MAX ==> r == x
  {
    var low := x % 0x1_0000_0000;
    if low <= I32_MAX then low else low - 0x1_0000_0000
  }

  /** Keeps the low 64 bits. */
  function WrapU64(x: int): (r: U64)
    ensures 0 <= x <= U64_MAX ==> r == x
  {
    x % 0x1_0000_0000_0000_0000
  }

  function Power(base: nat, n: nat): nat {
    if n == 0 then 1 else base * Power(base, n - 1)
  }
}
