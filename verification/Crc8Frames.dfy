/** When the checksum misses a transmission error: a received frame is accepted exactly when the
    register, started at zero and fed the bits of the error alone, ends at zero. */
module Crc8Frames {
  import opened Bytes
  import opened Crc8
  import opened Crc8Register
  import opened ShiftRegister

  /** `frame` ends in the checksum of what precedes it. */
  predicate Accepts(frame: seq<Byte>)
    requires |frame| > 0
  {
    Checksum(frame[..|frame| - 1]) == frame[|frame| - 1]
  }

  function Sealed(data: seq<Byte>): seq<Byte> {
    data + [Checksum(data)]
  }

  /** The frame received when the bits set in `e` are flipped on the way. */
  function Corrupt(frame: seq<Byte>, e: seq<Byte>): (r: seq<Byte>)
    requires |frame| == |e|
    ensures |r| == |frame|
  {
    seq(|frame|, i requires 0 <= i < |frame| => frame[i] ^ e[i])
  }

  /** What the bits of an error leave in a register started at zero. */
  function Syndrome(e: seq<Byte>): Word {
    Run(CRC, ZERO, Bits(e))
  }

  lemma {:induction false} FoldSnoc(crc: Byte, data: seq<Byte>, b: Byte)
    ensures Fold(crc, data + [b]) == Update(Fold(crc, data), b)
    decreases data
  {
    if |data| == 0 {
      assert data + [b] == [b] && [b][1..] == [];
      assert Fold(crc, [b]) == Fold(Update(crc, b), []);
    } else {
      assert (data + [b])[1..] == data[1..] + [b];
      FoldSnoc(Update(crc, data[0]), data[1..], b);
    }
  }

  lemma UpdateZero(crc: Byte, b: Byte)
    ensures ByteBits(Update(crc, b)) == ZERO <==> crc == b
  {
    XorBits(crc, b);
    ShiftBytesBits(8, crc ^ b);
    CrcLinear();
    ShiftsNonzero(CRC, 8, Xor(ByteBits(crc), ByteBits(b)));
    WordZero(ByteBits(crc), ByteBits(b));
    SameBits(crc, b);
  }

  /** The receiver could equally check that the checksum of the whole frame is zero. */
  lemma AcceptsIffResidueZero(frame: seq<Byte>)
    requires |frame| > 0
    ensures Accepts(frame) <==> ByteBits(Checksum(frame)) == ZERO
  {
    var body, last := frame[..|frame| - 1], frame[|frame| - 1];
    assert frame == body + [last];
    FoldSnoc(INITIAL, body, last);
    UpdateZero(Checksum(body), last);
  }

  lemma {:induction false} BitsOfCorrupt(frame: seq<Byte>, e: seq<Byte>, a: Word, b: Word)
    requires |frame| == |e|
    ensures Run(CRC, Xor(a, b), Bits(Corrupt(frame, e))) == Xor(Run(CRC, a, Bits(frame)), Run(CRC, b, Bits(e)))
    decreases frame
  {
    if |frame| > 0 {
      var f, x := ByteBits(frame[0]), ByteBits(e[0]);
      assert Corrupt(frame, e)[1..] == Corrupt(frame[1..], e[1..]);
      XorBits(frame[0], e[0]);
      RunWord(Xor(a, b), Xor(f, x), Bits(Corrupt(frame[1..], e[1..])));
      RunWord(a, f, Bits(frame[1..]));
      RunWord(b, x, Bits(e[1..]));
      WordShuffle(a, b, f, x);
      CrcLinear();
      ShiftsLinear(CRC, 8, Xor(a, f), Xor(b, x));
      BitsOfCorrupt(frame[1..], e[1..], Shifts(CRC, 8, Xor(a, f)), Shifts(CRC, 8, Xor(b, x)));
    }
  }

  lemma RunWord(a: Word, w: Word, rest: seq<bool>)
    ensures Run(CRC, a, w + rest) == Run(CRC, Shifts(CRC, 8, Xor(a, w)), rest)
  {
    RunConcat(CRC, a, w, rest);
    RunPad(a, w);
    assert Pad(w) == w;
  }

  /** An untouched frame is accepted. */
  lemma SealedAccepted(data: seq<Byte>)
    ensures Accepts(Sealed(data))
  {}

  /** Exactly which errors go unnoticed: those whose bits leave the register at zero. */
  lemma AcceptsCorruptIff(data: seq<Byte>, e: seq<Byte>)
    requires |e| == |data| + 1
    ensures Accepts(Corrupt(Sealed(data), e)) <==> Syndrome(e) == ZERO
  {
    var frame := Sealed(data);
    SealedAccepted(data);
    AcceptsIffResidueZero(frame);
    AcceptsIffResidueZero(Corrupt(frame, e));
    FoldIsRun(INITIAL, frame);
    FoldIsRun(INITIAL, Corrupt(frame, e));
    var start := ByteBits(INITIAL);
    WordZero(start, start);
    BitsOfCorrupt(frame, e, start, ZERO);
    WordZero(Syndrome(e), ZERO);
  }
}
