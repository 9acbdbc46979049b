/** Fixed-width unsigned integers, an Option type and the wrapping arithmetic
    the queue performs on them. */
module Types {

  type uint8 = x: int | 0 <= x < 0x100
  type uint16 = x: int | 0 <= x < 0x1_0000
  type uint32 = x: int | 0 <= x < 0x1_0000_0000

  const U16_MODULUS: nat := 0x1_0000
  const U32_MODULUS: nat := 0x1_0000_0000
  const U64_MODULUS: nat := 0x1_0000_0000_0000_0000

  datatype Option<+T> = None | Some(value: T) {
    /** Rust's `unwrap_or`. */
    function GetOr(default: T): T {
      match this
      case Some(v) => v
      case None => default
    }
  }

  /** `u16::wrapping_add(1)`: the successor in the 16-bit sequence space. */
  function WrappingInc16(x: uint16): (r: uint16)
    ensures x < 0xFFFF ==> r == x + 1
    ensures x == 0xFFFF ==> r == 0
  {
    (x + 1) % U16_MODULUS
  }

  /** `u16::wrapping_sub`: the difference modulo 2^16, so that adding it back to
      the subtrahend gives the minuend again. */
  function WrappingSub16(a: uint16, b: uint16): (r: uint16)
    ensures (b + r) % U16_MODULUS == a
    ensures b <= a ==> r == a - b
  {
    (a - b) % U16_MODULUS
  }

  /** `u32::wrapping_sub`. */
  function WrappingSub32(a: uint32, b: uint32): (r: uint32)
    ensures (b + r) % U32_MODULUS == a
    ensures b <= a ==> r == a - b
  {
    (a - b) % U32_MODULUS
  }

  function Min(a: int, b: int): int {
    if a <= b then a else b
  }

  function Abs(a: int): nat {
    if a < 0 then -a else a
  }
}
