/** Option values and the fixed-width integer ranges of the Rust source. */
module Wrappers {

  datatype Option<+T> = None | Some(value: T)

  /** Rust's unsigned and signed integer ranges, as subsets of `int`. */
  type u8 = x: int | 0 <= x < 0x100
  type u16 = x: int | 0 <= x < 0x1_0000
  type u32 = x: int | 0 <= x < 0x1_0000_0000
  type i32 = x: int | -0x8000_0000 <= x < 0x8000_0000

  /** Rust's `clamp` on integers. */
  function Clamp(x: int, lo: int, hi: int): (r: int)
    requires lo <= hi
    ensures lo <= r <= hi
    ensures lo <= x <= hi ==> r == x
    ensures x < lo ==> r == lo
    ensures hi < x ==> r == hi
  {
    if x < lo then lo else if hi < x then hi else x
  }

  /** Two's-complement wrap-around into the `i8` range (`as i8`, wrapping `i8` addition). */
  function WrapI8(x: int): (r: int)
    ensures -128 <= r < 128
    ensures (r - x) % 256 == 0
  {
    (x + 128) % 256 - 128
  }

  /** Wrap-around into the `u8` range (wrapping `u8` addition). */
  function WrapU8(x: int): (r: u8)
    ensures (r - x) % 256 == 0
  {
    x % 256
  }

  /** Wrap-around into the `u16` range (`as u16` on a wider integer). */
  function WrapU16(x: int): (r: u16)
    ensures (r - x) % 0x1_0000 == 0
  {
    x % 0x1_0000
  }
}
