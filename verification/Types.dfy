/** Fixed-width integers and the option type shared by every module. */
module Types {

  type u8 = n: nat | n < 0x100
  type u16 = n: nat | n < 0x1_0000
  type u32 = n: nat | n < 0x1_0000_0000
  type u64 = n: nat | n < 0x1_0000_0000_0000_0000

  datatype Option<+T> = None | Some(value: T)

  function Min(a: nat, b: nat): nat { if a <= b then a else b }

  /** Unsigned 32-bit addition, wrapping as C does. */
  function Add32(a: u32, b: nat): u32 { (a + b) % 0x1_0000_0000 }

  /** Unsigned 64-bit subtraction, wrapping as C does. */
  function Sub64(a: u64, b: u64): (r: u64)
    ensures a >= b ==> r == a - b
  {
    (a - b) % 0x1_0000_0000_0000_0000
  }
}
