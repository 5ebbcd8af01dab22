/** Fixed-width integers of the driver and their little-endian byte layouts.
    Rust's `u8`, `u16`, `u32` and `i16` are subset types of `int`; every cast
    and shift of the driver is written out as arithmetic on them. */
module Bytes {

  type Byte = x: int | 0 <= x < 0x100
  type U16 = x: int | 0 <= x < 0x1_0000
  type U32 = x: int | 0 <= x < 0x1_0000_0000
  type I16 = x: int | -0x8000 <= x < 0x8000

  /** The unsigned 16-bit value of two bytes, low byte first. */
  function LeU16(lo: Byte, hi: Byte): U16 {
    lo as int + 0x100 * (hi as int)
  }

  /** Reinterprets a 16-bit pattern as a two's-complement `i16`. */
  function ToI16(u: U16): (v: I16)
    ensures (v + 0x1_0000) % 0x1_0000 == u
    ensures (u < 0x8000) == (v >= 0)
  {
    if u < 0x8000 then u else u - 0x1_0000
  }

  /** The little-endian two's-complement `i16` held in bytes `lo`, `hi`. */
  function LeI16(lo: Byte, hi: Byte): (v: I16)
    ensures (v + 0x1_0000) % 0x1_0000 == lo as int + 0x100 * (hi as int)
    ensures (v < 0) == (hi >= 0x80)
  {
    ToI16(LeU16(lo, hi))
  }

  /** The two bytes, low first, that hold `v` in two's complement. */
  function I16Bytes(v: I16): (b: seq<Byte>)
    ensures |b| == 2
  {
    var u := if v < 0 then v + 0x1_0000 else v;
    [u % 0x100, u / 0x100]
  }

  /** Decoding the encoding of an `i16` gives it back. */
  lemma I16RoundTrip(v: I16)
    ensures LeI16(I16Bytes(v)[0], I16Bytes(v)[1]) == v
  {
    var u := if v < 0 then v + 0x1_0000 else v;
    assert LeU16(u % 0x100, u / 0x100) == u;
  }

  /** Every pair of bytes is the encoding of exactly the `i16` it decodes to. */
  lemma BytesRoundTrip(lo: Byte, hi: Byte)
    ensures I16Bytes(LeI16(lo, hi)) == [lo, hi]
  {
    var u := LeU16(lo, hi);
    assert u % 0x100 == lo && u / 0x100 == hi;
  }

  /** The unsigned 32-bit value of four bytes, low byte first. */
  function LeU32(b: seq<Byte>): U32
    requires |b| == 4
  {
    b[0] as int + 0x100 * (b[1] as int) + 0x1_0000 * (b[2] as int) + 0x100_0000 * (b[3] as int)
  }

  /** `[v & 0xFF, (v >> 8) & 0xFF, (v >> 16) & 0xFF, (v >> 24) & 0xFF]`, with
      each shift taken as the previous quotient shifted by another 8 bits. */
  function U32Bytes(v: U32): (b: seq<Byte>)
    ensures |b| == 4 && LeU32(b) == v
  {
    var q1 := v / 0x100;
    var q2 := q1 / 0x100;
    var q3 := q2 / 0x100;
    [v % 0x100, q1 % 0x100, q2 % 0x100, q3 % 0x100]
  }
}
