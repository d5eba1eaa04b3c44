/** The period of the checksum's shift register: 127, a prime. */
module Crc8Period {
  import opened Bytes
  import opened Crc8
  import opened Crc8Register
  import opened ShiftRegister

  function FourTimes(c: Byte): Byte {
    ShiftByte(ShiftByte(ShiftByte(ShiftByte(c))))
  }

  lemma FourShifts(n: nat, c: Byte)
    ensures ShiftBytes(n + 4, c) == ShiftBytes(n, FourTimes(c))
  {
    var c1 := ShiftByte(c);
    var c2 := ShiftByte(c1);
    var c3 := ShiftByte(c2);
    assert ShiftBytes(n + 4, c) == ShiftBytes(n + 3, c1);
    assert ShiftBytes(n + 3, c1) == ShiftBytes(n + 2, c2);
    assert ShiftBytes(n + 2, c2) == ShiftBytes(n + 1, c3);
  }

  lemma EightShifts(c: Byte)
    ensures Shifts(CRC, 8, ByteBits(c)) == ByteBits(FourTimes(FourTimes(c)))
  {
    hide FourTimes;
    FourShifts(4, c);
    FourShifts(0, FourTimes(c));
    ShiftBytesBits(8, c);
  }

  /** Eight more shifts. */
  lemma Hop(n: nat, a: Byte, b: Byte)
    requires Shifts(CRC, n, ByteBits(a)) == ByteBits(b)
    ensures Shifts(CRC, n + 8, ByteBits(a)) == ByteBits(FourTimes(FourTimes(b)))
  {
    EightShifts(b);
    ShiftsAdd(CRC, n, 8, ByteBits(a));
  }

  /** The number of shifts after which the top bit comes back. */
  const PERIOD: nat := 127

  /** The top bit returns to itself after a period, and not after one shift. */
  lemma TopReturns()
    ensures Shifts(CRC, PERIOD, TOP) == TOP && ShiftWord(TOP) != TOP
  {
    assert ByteBits(0x80) == TOP;
    assert !ShiftWord(TOP)[0];
    Hop(0, 0x80, 0x80);
    Hop(8, 0x80, 0x7a);
    Hop(16, 0x80, 0x23);
    Hop(24, 0x80, 0xd5);
    Hop(32, 0x80, 0xf1);
    Hop(40, 0x80, 0xb3);
    Hop(48, 0x80, 0xec);
    Hop(56, 0x80, 0xbc);
    Hop(64, 0x80, 0xc2);
    Hop(72, 0x80, 0x25);
    Hop(80, 0x80, 0x73);
    Hop(88, 0x80, 0xab);
    Hop(96, 0x80, 0x16);
    Hop(104, 0x80, 0xe5);
    Hop(112, 0x80, 0x34);
    ShiftsAdd(CRC, 120, PERIOD - 120, TOP);
    FourShifts(3, 0x01);
    assert ShiftBytes(3, 0x10) == ShiftBytes(2, 0x20);
    assert ShiftBytes(2, 0x20) == ShiftBytes(1, 0x40);
    ShiftBytesBits(7, 0x01);
  }

  lemma PeriodPrime()
    ensures Prime(PERIOD)
  {
    forall k: nat {:trigger PERIOD % k} | 2 <= k < PERIOD ensures PERIOD % k != 0 {
      NoDivisor(k);
    }
  }

  lemma NoDivisor(k: nat)
    requires 2 <= k < PERIOD
    ensures PERIOD % k != 0
  {
    if PERIOD % k == 0 {
      var q := PERIOD / k;
      assert PERIOD == k * q;
      if k < 12 {
        SmallFactor(k, q);
      } else if q < 12 {
        SmallFactor(q, k);
      }
    }
  }

  lemma SmallFactor(small: nat, other: nat)
    requires small < 12 && (small == 1 ==> other != PERIOD)
    ensures small * other != PERIOD
  {
    assert small == 0 || small == 1 || small == 2 || small == 3 || small == 4 || small == 5 || small == 6
        || small == 7 || small == 8 || small == 9 || small == 10 || small == 11;
  }

  lemma TopPeriod(n: nat)
    ensures Shifts(CRC, n, TOP) == TOP <==> n % PERIOD == 0
  {
    TopReturns();
    PeriodPrime();
    PeriodIff(CRC, PERIOD, n, TOP);
  }
}
