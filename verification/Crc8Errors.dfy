/** Which errors the checksum is sure to catch. */
module Crc8Errors {
  import opened Bytes
  import opened Crc8Frames
  import opened Crc8Period
  import opened Crc8Register
  import opened ShiftRegister

  /** Every error that flips an odd number of bits is noticed. */
  lemma OddErrorsRejected(data: seq<Byte>, e: seq<Byte>)
    requires |e| == |data| + 1
    requires Weight(Bits(e)) % 2 == 1
    ensures !Accepts(Corrupt(Sealed(data), e))
  {
    AcceptsCorruptIff(data, e);
    CrcParity();
    RunParity(CRC, Odd, ZERO, Bits(e));
  }

  /** At most eight bits, not all clear, leave a nonzero register. */
  lemma ShortRunNonzero(burst: seq<bool>)
    requires |burst| <= 8 && !Clear(burst)
    ensures Run(CRC, ZERO, burst) != ZERO
  {
    hide Run, Shifts, Linear;
    RunPad(ZERO, burst);
    WordZero(Pad(burst), ZERO);
    PadNonzero(burst);
    CrcLinear();
    ShiftsNonzero(CRC, |burst|, Pad(burst));
  }

  lemma PadNonzero(burst: seq<bool>)
    requires |burst| <= 8 && !Clear(burst)
    ensures Pad(burst) != ZERO
  {
    var hit :| 0 <= hit < |burst| && burst[hit];
    assert Pad(burst)[hit];
  }

  /** Every error confined to eight consecutive bits is noticed, wherever it falls: across a
      byte boundary, and into the checksum byte too. */
  lemma BurstsRejected(data: seq<Byte>, e: seq<Byte>, at: nat)
    requires |e| == |data| + 1
    requires !Clear(Bits(e)) && Within(Bits(e), at, at + 8)
    ensures !Accepts(Corrupt(Sealed(data), e))
  {
    AcceptsCorruptIff(data, e);
    CrcLinear();
    var bits := Bits(e);
    var burst := CutBurst(bits, at);
    ShortRunNonzero(burst);
  }

  lemma CutBurst(bits: seq<bool>, at: nat) returns (burst: seq<bool>)
    requires Linear(CRC)
    requires !Clear(bits) && Within(bits, at, at + 8)
    ensures |burst| <= 8 && !Clear(burst)
    ensures Run(CRC, ZERO, bits) == ZERO <==> Run(CRC, ZERO, burst) == ZERO
  {
    var hit :| 0 <= hit < |bits| && bits[hit];
    var end := if at + 8 <= |bits| then at + 8 else |bits|;
    burst := bits[at..end];
    assert burst[hit - at];
    assert bits == bits[..at] + burst + bits[end..];
    RunPadded(CRC, bits[..at], burst, bits[end..]);
  }

  /** Two flipped bits go unnoticed exactly when their distance is a multiple of 127 bits. */
  lemma TwoBitErrorsIff(data: seq<Byte>, e: seq<Byte>, i: nat, j: nat)
    requires |e| == |data| + 1
    requires i < j < 8 * |e| && forall k :: 0 <= k < 8 * |e| ==> (Bits(e)[k] <==> k == i || k == j)
    ensures Accepts(Corrupt(Sealed(data), e)) <==> (j - i) % PERIOD == 0
  {
    AcceptsCorruptIff(data, e);
    TwoBitSyndrome(Bits(e), i, j);
  }

  lemma TwoBitSyndrome(bits: seq<bool>, i: nat, j: nat)
    requires i < j < |bits| && forall k :: 0 <= k < |bits| ==> (bits[k] <==> k == i || k == j)
    ensures Run(CRC, ZERO, bits) == ZERO <==> (j - i) % PERIOD == 0
  {
    CrcLinear();
    TwoBits(CRC, bits, i, j);
    TopPeriod(j - i);
  }

  /** In frames of at most fifteen bytes, checksum included, every error of one, two or three
      bits is noticed. */
  lemma SmallErrorsRejected(data: seq<Byte>, e: seq<Byte>)
    requires |e| == |data| + 1 <= 15
    requires 1 <= Weight(Bits(e)) <= 3
    ensures !Accepts(Corrupt(Sealed(data), e))
  {
    if Weight(Bits(e)) == 2 {
      var i, j := WeightTwo(Bits(e));
      TwoBitErrorsIff(data, e, i, j);
    } else {
      OddErrorsRejected(data, e);
    }
  }

  // ---------------------------------------------------------------- errors that pass

  function Zeros(n: nat): seq<Byte> {
    if n == 0 then [] else [0] + Zeros(n - 1)
  }

  lemma {:induction false} BitsConcat(a: seq<Byte>, b: seq<Byte>)
    ensures Bits(a + b) == Bits(a) + Bits(b)
    decreases |a|
  {
    hide ByteBits;
    if |a| == 0 {
      assert a + b == b;
    } else {
      assert (a + b)[1..] == a[1..] + b;
      BitsConcat(a[1..], b);
    }
  }

  lemma {:induction false} ZeroBits(n: nat)
    ensures |Zeros(n)| == n && Clear(Bits(Zeros(n)))
    decreases n
  {
    if n > 0 {
      ZeroBits(n - 1);
      assert Zeros(n)[1..] == Zeros(n - 1);
    }
  }

  lemma OneByte(b: Byte)
    ensures Bits([b]) == ByteBits(b)
  {
    hide ByteBits;
    assert [b][1..] == [];
  }

  /** The first and the last bit of sixteen bytes, which are 127 bits apart. */
  function FarApart(n: nat): seq<Byte>
    requires n >= 16
  {
    [0x80] + Zeros(14) + [0x01] + Zeros(n - 16)
  }

  lemma FarApartBits(n: nat)
    requires n >= 16
    ensures |FarApart(n)| == n && FarApart(n)[0] == 0x80
    ensures forall k :: 0 <= k < 8 * n ==> (Bits(FarApart(n))[k] <==> k == 0 || k == 127)
  {
    hide Bits, Zeros;
    var a, z, b, rest := [0x80 as Byte], Zeros(14), [0x01 as Byte], Zeros(n - 16);
    ZeroBits(14);
    ZeroBits(n - 16);
    OneByte(0x80);
    OneByte(0x01);
    BitsConcat(a, z);
    BitsConcat(a + z, b);
    BitsConcat(a + z + b, rest);
  }

  /** From sixteen bytes on, checksum included, some damage of two bits is not noticed, whatever
      the data: the bound of fifteen bytes is sharp. */
  lemma LongFramesMissTwoBits(data: seq<Byte>)
    requires |data| >= 15
    ensures var frame := Sealed(data);
            var e := FarApart(|frame|);
            |e| == |frame| && Corrupt(frame, e) != frame && Accepts(Corrupt(frame, e))
  {
    hide FarApart, Accepts, Bits;
    var frame := Sealed(data);
    var e := FarApart(|frame|);
    FarApartBits(|frame|);
    TwoBitErrorsIff(data, e, 0, 127);
    XorInjective(0x80, 0, frame[0]);
    assert Corrupt(frame, e)[0] == frame[0] ^ 0x80;
    assert frame[0] ^ 0 == frame[0];
  }
}
