/** The byte-wise checksum is a bit-serial shift register, which is linear and keeps parity. */
module Crc8Register {
  import opened Bytes
  import opened Crc8
  import opened ShiftRegister

  const ZERO: Word := [false, false, false, false, false, false, false, false]
  const TOP: Word := [true, false, false, false, false, false, false, false]

  const CRC: Register<Word> := Register(ZERO, TOP, Xor, ShiftWord)

  lemma WordZero(a: Word, b: Word)
    ensures Xor(a, ZERO) == a && Xor(ZERO, a) == a
    ensures Xor(a, b) == ZERO <==> a == b
  {}

  lemma WordShuffle(a: Word, b: Word, c: Word, d: Word)
    ensures Xor(Xor(a, b), Xor(c, d)) == Xor(Xor(a, c), Xor(b, d))
  {}

  lemma WordShift(a: Word, b: Word)
    ensures ShiftWord(Xor(a, b)) == Xor(ShiftWord(a), ShiftWord(b))
    ensures ShiftWord(a) == ZERO <==> a == ZERO
  {
    if ShiftWord(a) == ZERO {
      assert !ShiftWord(a)[7];
      forall i | 0 <= i < 8 ensures !a[i] {
        assert i > 0 ==> !ShiftWord(a)[i - 1];
      }
    }
  }

  lemma CrcInvolutive()
    ensures Involutive(CRC)
  {
    forall a ensures CRC.xor(a, CRC.zero) == a {
      WordZero(a, a);
    }
    forall a ensures CRC.xor(CRC.zero, a) == a {
      WordZero(a, a);
    }
    forall a, b ensures CRC.xor(a, b) == CRC.zero <==> a == b {
      WordZero(a, b);
    }
  }

  lemma CrcCommutes()
    ensures Commutes(CRC)
  {
    forall a, b, c, d ensures CRC.xor(CRC.xor(a, b), CRC.xor(c, d)) == CRC.xor(CRC.xor(a, c), CRC.xor(b, d)) {
      WordShuffle(a, b, c, d);
    }
  }

  lemma CrcHomomorphic()
    ensures Homomorphic(CRC)
  {
    forall a, b ensures CRC.shift(CRC.xor(a, b)) == CRC.xor(CRC.shift(a), CRC.shift(b)) {
      WordShift(a, b);
    }
    forall a ensures CRC.shift(a) == CRC.zero <==> a == CRC.zero {
      WordShift(a, a);
    }
  }

  lemma CrcLinear()
    ensures Linear(CRC)
  {
    CrcInvolutive();
    CrcCommutes();
    CrcHomomorphic();
  }

  predicate Odd(w: Word) {
    ((w[0] != w[1]) != (w[2] != w[3])) != ((w[4] != w[5]) != (w[6] != w[7]))
  }

  lemma OddXor(a: Word, b: Word)
    ensures Odd(Xor(a, b)) <==> Odd(a) != Odd(b)
  {}

  /** The generator has an even number of terms, so a shift keeps parity. */
  lemma OddShift(a: Word)
    ensures Odd(ShiftWord(a)) <==> Odd(a)
  {}

  lemma CrcParity()
    ensures ParityOf(CRC, Odd)
  {
    forall a: Word, b: Word ensures Odd(CRC.xor(a, b)) <==> Odd(a) != Odd(b) {
      OddXor(a, b);
    }
    forall a: Word ensures Odd(CRC.shift(a)) <==> Odd(a) {
      OddShift(a);
    }
  }

  // ---------------------------------------------------------------- bytes are eight bits

  /** The bits of a byte string in transmission order. */
  function Bits(data: seq<Byte>): (bits: seq<bool>)
    ensures |bits| == 8 * |data|
    decreases data
  {
    if |data| == 0 then [] else ByteBits(data[0]) + Bits(data[1..])
  }

  function Pad(bits: seq<bool>): Word
    requires |bits| <= 8
  {
    bits + seq(8 - |bits|, i => false)
  }

  /** Feeding up to eight bits is adding them to the register all at once. */
  lemma {:induction false} RunPad(c: Word, bits: seq<bool>)
    requires |bits| <= 8
    ensures Run(CRC, c, bits) == Shifts(CRC, |bits|, Xor(c, Pad(bits)))
    decreases bits
  {
    if |bits| == 0 {
      WordZero(c, Pad(bits));
      assert Pad(bits) == ZERO;
    } else {
      var rest := bits[1..];
      PadStep(c, bits);
      RunPad(ShiftWord(Xor(c, Input(CRC, bits[0]))), rest);
    }
  }

  lemma PadStep(c: Word, bits: seq<bool>)
    requires 1 <= |bits| <= 8
    ensures ShiftWord(Xor(c, Pad(bits))) == Xor(ShiftWord(Xor(c, Input(CRC, bits[0]))), Pad(bits[1..]))
  {}

  lemma {:induction false} ShiftBytesBits(n: nat, c: Byte)
    ensures ByteBits(ShiftBytes(n, c)) == Shifts(CRC, n, ByteBits(c))
  {
    if n > 0 {
      ShiftBits(c);
      ShiftBytesBits(n - 1, ShiftByte(c));
    }
  }

  /** The byte-wise checksum is the bit-serial register. */
  lemma {:induction false} FoldIsRun(crc: Byte, data: seq<Byte>)
    ensures ByteBits(Fold(crc, data)) == Run(CRC, ByteBits(crc), Bits(data))
    decreases data
  {
    if |data| > 0 {
      var w := ByteBits(data[0]);
      XorBits(crc, data[0]);
      ShiftBytesBits(8, crc ^ data[0]);
      RunPad(ByteBits(crc), w);
      assert Pad(w) == w;
      RunConcat(CRC, ByteBits(crc), w, Bits(data[1..]));
      FoldIsRun(Update(crc, data[0]), data[1..]);
    }
  }
}
