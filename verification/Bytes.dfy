/** Bytes and their bits.  The only module that reasons about bit-vectors: everything else
    sees a byte through `ByteBits`. */
module Bytes {

  type Byte = bv8

  /** The eight bits of a byte, most significant first. */
  type Word = w: seq<bool> | |w| == 8 witness seq(8, i => false)

  function Mask(i: nat): Byte
    requires i < 8
  {
    [0x80, 0x40, 0x20, 0x10, 0x08, 0x04, 0x02, 0x01][i]
  }

  predicate Has(b: Byte, mask: Byte) {
    b & mask != 0
  }

  function ByteBits(b: Byte): Word {
    seq(8, i requires 0 <= i < 8 => Has(b, Mask(i)))
  }

  function Xor(a: Word, b: Word): Word {
    seq(8, i requires 0 <= i < 8 => a[i] != b[i])
  }

  /** One step of the checksum's inner loop: polynomial x^8 + x^5 + x^4 + 1. */
  function ShiftByte(crc: Byte): Byte {
    if crc & 0x80 != 0 then (crc << 1) ^ 0x31 else crc << 1
  }

  /** The same step on bits: the bit shifted out is added at x^5, x^4 and 1. */
  function ShiftWord(w: Word): Word {
    seq(8, i requires 0 <= i < 8 => if i == 7 then w[0] else w[i + 1] != (w[0] && (i == 2 || i == 3)))
  }

  lemma XorMask(a: Byte, b: Byte, mask: Byte)
    requires mask in [0x80, 0x40, 0x20, 0x10, 0x08, 0x04, 0x02, 0x01]
    ensures Has(a ^ b, mask) <==> Has(a, mask) != Has(b, mask)
  {}

  lemma XorBits(a: Byte, b: Byte)
    ensures ByteBits(a ^ b) == Xor(ByteBits(a), ByteBits(b))
  {
    forall i | 0 <= i < 8 ensures ByteBits(a ^ b)[i] == Xor(ByteBits(a), ByteBits(b))[i] {
      XorMask(a, b, Mask(i));
    }
  }

  lemma ShiftMask(b: Byte)
    ensures Has(ShiftByte(b), 0x80) == Has(b, 0x40) && Has(ShiftByte(b), 0x40) == Has(b, 0x20)
    ensures Has(ShiftByte(b), 0x20) == (Has(b, 0x10) != Has(b, 0x80))
    ensures Has(ShiftByte(b), 0x10) == (Has(b, 0x08) != Has(b, 0x80))
    ensures Has(ShiftByte(b), 0x08) == Has(b, 0x04) && Has(ShiftByte(b), 0x04) == Has(b, 0x02)
    ensures Has(ShiftByte(b), 0x02) == Has(b, 0x01) && Has(ShiftByte(b), 0x01) == Has(b, 0x80)
  {}

  lemma ShiftMaskAt(b: Byte, i: nat)
    requires i < 8
    ensures Has(ShiftByte(b), Mask(i)) ==
            if i == 7 then Has(b, Mask(0)) else Has(b, Mask(i + 1)) != (Has(b, Mask(0)) && (i == 2 || i == 3))
  {
    ShiftMask(b);
  }

  lemma ShiftBits(b: Byte)
    ensures ByteBits(ShiftByte(b)) == ShiftWord(ByteBits(b))
  {
    forall i | 0 <= i < 8 ensures ByteBits(ShiftByte(b))[i] == ShiftWord(ByteBits(b))[i] {
      ShiftMaskAt(b, i);
    }
  }

  /** A byte is determined by its bits. */
  lemma SameMask(a: Byte, b: Byte)
    requires Has(a, 0x80) == Has(b, 0x80) && Has(a, 0x40) == Has(b, 0x40)
    requires Has(a, 0x20) == Has(b, 0x20) && Has(a, 0x10) == Has(b, 0x10)
    requires Has(a, 0x08) == Has(b, 0x08) && Has(a, 0x04) == Has(b, 0x04)
    requires Has(a, 0x02) == Has(b, 0x02) && Has(a, 0x01) == Has(b, 0x01)
    ensures a == b
  {}

  lemma SameBits(a: Byte, b: Byte)
    ensures ByteBits(a) == ByteBits(b) <==> a == b
  {
    if ByteBits(a) == ByteBits(b) {
      forall i | 0 <= i < 8 ensures Has(a, Mask(i)) == Has(b, Mask(i)) {
        assert ByteBits(a)[i] == ByteBits(b)[i];
      }
      assert Mask(0) == 0x80 && Mask(1) == 0x40 && Mask(2) == 0x20 && Mask(3) == 0x10;
      assert Mask(4) == 0x08 && Mask(5) == 0x04 && Mask(6) == 0x02 && Mask(7) == 0x01;
      SameMask(a, b);
    }
  }

  // ---------------------------------------------------------------- exclusive or and halves

  lemma XorInjective(a: Byte, b: Byte, c: Byte)
    ensures a ^ c == b ^ c <==> a == b
    ensures c ^ a == c ^ b <==> a == b
  {}

  function HighHalf(b: Byte): (h: Byte)
    ensures h < 16
  {
    b >> 4
  }

  function LowHalf(b: Byte): (l: Byte)
    ensures l < 16
  {
    b & 0x0f
  }

  function FromHalves(high: Byte, low: Byte): Byte {
    (high << 4) | low
  }

  lemma HalvesSplit(high: Byte, low: Byte)
    requires high < 16 && low < 16
    ensures HighHalf(FromHalves(high, low)) == high && LowHalf(FromHalves(high, low)) == low
  {}
}
