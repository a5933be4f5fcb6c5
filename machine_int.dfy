/**
 * The C# integer types the game manager computes with. C# arithmetic on
 * `int` and `long` is unchecked unless stated otherwise, so an overflowing
 * result wraps around modulo 2^32 or 2^64.
 */
module MachineInt {

  const INT32_MIN: int := -0x8000_0000
  const INT32_MAX: int := 0x7FFF_FFFF
  const INT64_MIN: int := -0x8000_0000_0000_0000
  const INT64_MAX: int := 0x7FFF_FFFF_FFFF_FFFF

  /** C# `int`. */
  type Int32 = x: int | INT32_MIN <= x <= INT32_MAX

  /** C# `long`. */
  type Int64 = x: int | INT64_MIN <= x <= INT64_MAX

  predicate IsInt32(x: int) { INT32_MIN <= x <= INT32_MAX }

  predicate IsInt64(x: int) { INT64_MIN <= x <= INT64_MAX }

  /** The `int` that unchecked C# arithmetic yields for the exact value `x`. */
  function Wrap32(x: int): (r: Int32)
    ensures IsInt32(x) ==> r == x
    ensures (x - r) % 0x1_0000_0000 == 0
  {
    var q := (x + 0x8000_0000) / 0x1_0000_0000;
    assert x - ((x + 0x8000_0000) % 0x1_0000_0000 - 0x8000_0000) == q * 0x1_0000_0000;
    (x + 0x8000_0000) % 0x1_0000_0000 - 0x8000_0000
  }

  /** The `long` that unchecked C# arithmetic yields for the exact value `x`. */
  function Wrap64(x: int): (r: Int64)
    ensures IsInt64(x) ==> r == x
    ensures (x - r) % 0x1_0000_0000_0000_0000 == 0
  {
    var q := (x + 0x8000_0000_0000_0000) / 0x1_0000_0000_0000_0000;
    assert x - ((x + 0x8000_0000_0000_0000) % 0x1_0000_0000_0000_0000 - 0x8000_0000_0000_0000)
        == q * 0x1_0000_0000_0000_0000;
    (x + 0x8000_0000_0000_0000) % 0x1_0000_0000_0000_0000 - 0x8000_0000_0000_0000
  }
}
