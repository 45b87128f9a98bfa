/**
 * Rust's fixed-width integers as ranges of `int`, and the byte orders the device drivers use:
 * `u16::from_be_bytes`, `i16::from_be_bytes` (two's complement) and `u16::to_le_bytes`.
 */
module Bytes {

  type u8 = x: int | 0 <= x < 256
  type u16 = x: int | 0 <= x < 65536
  type i16 = x: int | -32768 <= x < 32768

  /** `u16::from_be_bytes([hi, lo])`. */
  function U16FromBeBytes(hi: u8, lo: u8): u16 {
    hi * 256 + lo
  }

  /** `i16::from_be_bytes([hi, lo])`: the same sixteen bits read as two's complement. */
  function I16FromBeBytes(hi: u8, lo: u8): (x: i16)
    ensures x < 0 <==> hi >= 128
    ensures x == U16FromBeBytes(hi, lo) || x == U16FromBeBytes(hi, lo) - 65536
  {
    var u := U16FromBeBytes(hi, lo);
    if u >= 32768 then u - 65536 else u
  }

  /** `x.to_le_bytes()`: the low byte, then the high byte. */
  function U16ToLeBytes(x: u16): (u8, u8) {
    (x % 256, x / 256)
  }

  /** `x.to_be_bytes()` for `i16`. */
  function I16ToBeBytes(x: i16): (u8, u8) {
    var u := if x < 0 then x + 65536 else x;
    (u / 256, u % 256)
  }

  /** Little-endian bytes read back in the other order give the value. */
  lemma U16LeRoundTrip(x: u16)
    ensures var (lo, hi) := U16ToLeBytes(x); U16FromBeBytes(hi, lo) == x
  {
  }

  /** Reading the big-endian bytes of a signed value gives the value back, and the other way round. */
  lemma I16BeRoundTrip(x: i16, hi: u8, lo: u8)
    ensures var (h, l) := I16ToBeBytes(x); I16FromBeBytes(h, l) == x
    ensures I16ToBeBytes(I16FromBeBytes(hi, lo)) == (hi, lo)
  {
  }
}
