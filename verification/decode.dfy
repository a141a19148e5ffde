/**
 Decoding of one FIFO channel value (MAX30101_RateTesting.cydsn/MAX30101.c,
 lines 467-480): three bytes arrive most significant first, are placed in
 the low three bytes of a zero-topped 32-bit word, masked to 18 bits, and
 shifted right by `4 - resolution`.
 */
module Decode {
  import opened Registers

  /** The 18-bit data mask applied to every FIFO word. */
  const DataMask: bv32 := 0x3FFFF

  /** The word built from a big-endian triplet with a zero top byte. */
  function Word(b0: bv8, b1: bv8, b2: bv8): bv32 {
    (b0 as bv32 << 16) | (b1 as bv32 << 8) | b2 as bv32
  }

  /** The masked, unshifted value the raw reader stores. */
  function RawValue(b0: bv8, b1: bv8, b2: bv8): bv32 {
    Word(b0, b1, b2) & DataMask
  }

  /** The raw value keeps the low two bits of the first byte and the two other bytes whole. */
  lemma RawValueBits(b0: bv8, b1: bv8, b2: bv8)
    ensures RawValue(b0, b1, b2) <= DataMask
    ensures RawValue(b0, b1, b2) == ((b0 & 0x03) as bv32 << 16) | (b1 as bv32 << 8) | b2 as bv32
  {
  }

  /** The masked value shifted right by `4 - code`, as the ring-buffer reader stores it. */
  function ChannelValue(b0: bv8, b1: bv8, b2: bv8, code: bv8): bv32
    requires code <= 3
  {
    RawValue(b0, b1, b2) >> Shift(code)
  }

  /** A decoded channel value never exceeds the 18-bit mask shifted by the same amount. */
  lemma ChannelBound(b0: bv8, b1: bv8, b2: bv8, code: bv8)
    requires code <= 3
    ensures ChannelValue(b0, b1, b2, code) <= DataMask >> Shift(code)
  {
    RawValueBits(b0, b1, b2);
    var v, s := RawValue(b0, b1, b2), Shift(code);
    if s == 1 {} else if s == 2 {} else if s == 3 {} else {}
  }

  /** The triplet whose raw value is `v`: the inverse of `RawValue` on 18-bit values. */
  function Encode(v: bv32): (t: (bv8, bv8, bv8))
    requires v <= DataMask
    ensures t.0 <= 3
  {
    ((v >> 16) as bv8, ((v >> 8) & 0xFF) as bv8, (v & 0xFF) as bv8)
  }

  /** Encoding an 18-bit value and reading it back gives the value again. */
  lemma RawRoundTrip(v: bv32)
    requires v <= DataMask
    ensures var t := Encode(v); RawValue(t.0, t.1, t.2) == v
  {
    var t := Encode(v);
    RawValueBits(t.0, t.1, t.2);
  }

  /** Only the low two bits of the first byte reach the decoded value. */
  lemma OnlyLowBitsOfFirstByte(b0: bv8, c0: bv8, b1: bv8, b2: bv8)
    ensures b0 & 0x03 == c0 & 0x03 <==> RawValue(b0, b1, b2) == RawValue(c0, b1, b2)
  {
    var r, q := RawValue(b0, b1, b2), RawValue(c0, b1, b2);
    RawValueArithmetic(b0, b1, b2);
    RawValueArithmetic(c0, b1, b2);
    LowBits(b0);
    LowBits(c0);
    if r == q {
      assert r as int == q as int;
      assert (b0 & 0x03) as int == (c0 & 0x03) as int;
    }
  }

  lemma LowBits(b: bv8)
    ensures (b & 0x03) as int == b as int % 4
  {
  }

  /** The raw value as a number: `(b0 mod 4) * 2^16 + b1 * 2^8 + b2`. */
  lemma RawValueArithmetic(b0: bv8, b1: bv8, b2: bv8)
    ensures RawValue(b0, b1, b2) as int == (b0 as int % 4) * 0x10000 + b1 as int * 0x100 + b2 as int
  {
    var v := ((b0 & 0x03) as bv32 << 16) | (b1 as bv32 << 8) | b2 as bv32;
    RawValueBits(b0, b1, b2);
    assert v as int == (b0 as int % 4) * 0x10000 + b1 as int * 0x100 + b2 as int;
  }

  /** Full 18-bit resolution (code 3) still halves the value: the example word 0x3FFFF0 decodes to 0x1FFF8. */
  lemma FullResolutionShiftsByOne()
    ensures Shift(3) == 1
    ensures ChannelValue(0x3F, 0xFF, 0xF0, 3) == 0x1FFF8
    ensures ChannelValue(0xFF, 0xFF, 0xFF, 3) == 0x1FFFF
  {
  }
}
