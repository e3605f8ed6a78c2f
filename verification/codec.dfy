/** Combining two register bytes into a signed 16-bit sample, and its inverse. */
module Codec {
  import opened Types
  import opened Bits

  /** The conversion of a C `int` to `int16_t`: the value is taken modulo 2^16 as two's complement. */
  function Int16OfInt(u: int): (v: Int16)
    ensures (v - u) % 0x1_0000 == 0
  {
    var w := u % 0x1_0000;
    if w >= 0x8000 then w - 0x1_0000 else w
  }

  /**
   * conv2Byte2Signed16: the LSB fills the low eight bits, the MSB shifted left by 8 is OR-ed
   * in, and the pattern is stored into an `int16_t`.
   */
  function Conv2Byte2Signed16(lsb: Byte, msb: Byte): (v: Int16)
    ensures v == lsb + 0x100 * msb - (if msb >= 0x80 then 0x1_0000 else 0)
    ensures (v < 0) <==> msb >= 0x80
  {
    OrIsAddition(lsb, msb);
    Int16OfInt(BitOr(lsb, ShiftLeft(msb, 8)))
  }

  /** The two bytes occupy disjoint bits, so the OR is the sum `lsb + 256 * msb`. */
  lemma OrIsAddition(lsb: Byte, msb: Byte)
    ensures BitOr(lsb, ShiftLeft(msb, 8)) == lsb + 0x100 * msb
  {
    assert Pow2(8) == 0x100;
    ShiftLeftIsMultiplication(msb, 8);
    BitOrDisjoint(lsb, msb, 8);
  }

  /** The low byte of a sample, as the device stores it in DATAx0. */
  function LowByte(v: Int16): (b: Byte)
    ensures (v - b) % 0x100 == 0
  {
    (v % 0x1_0000) % 0x100
  }

  /** The high byte of a sample, as the device stores it in DATAx1. */
  function HighByte(v: Int16): (b: Byte)
    ensures (b >= 0x80) <==> v < 0
  {
    (v % 0x1_0000) / 0x100
  }

  /** Combining the two bytes of any sample gives the sample back. */
  lemma SplitThenCombine(v: Int16)
    ensures Conv2Byte2Signed16(LowByte(v), HighByte(v)) == v
  {
    var u := if v < 0 then v + 0x1_0000 else v;
    DivModUnique(v, if v < 0 then -1 else 0, u, 0x1_0000);
    var lo, hi := u % 0x100, u / 0x100;
    assert u == hi * 0x100 + lo;
    assert (hi >= 0x80) <==> v < 0;
  }

  /** Splitting a combined sample gives the two bytes back: no two byte pairs decode alike. */
  lemma CombineThenSplit(lsb: Byte, msb: Byte)
    ensures LowByte(Conv2Byte2Signed16(lsb, msb)) == lsb
    ensures HighByte(Conv2Byte2Signed16(lsb, msb)) == msb
  {
    var v := Conv2Byte2Signed16(lsb, msb);
    var u := lsb + 0x100 * msb;
    DivModUnique(v, if msb >= 0x80 then -1 else 0, u, 0x1_0000);
    DivModUnique(u, msb, lsb, 0x100);
  }
}
