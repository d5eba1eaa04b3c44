/** The CRC-8 of the servo wire protocol, computed a byte at a time. */
module Crc8 {
  import opened Bytes

  const INITIAL: Byte := 0xff
  const BYTE_BITS: nat := 8

  function ShiftBytes(n: nat, crc: Byte): Byte {
    if n == 0 then crc else ShiftBytes(n - 1, ShiftByte(crc))
  }

  function Update(crc: Byte, byte: Byte): Byte {
    ShiftBytes(BYTE_BITS, crc ^ byte)
  }

  function Fold(crc: Byte, data: seq<Byte>): Byte
    decreases data
  {
    if |data| == 0 then crc else Fold(Update(crc, data[0]), data[1..])
  }

  function Checksum(data: seq<Byte>): Byte {
    Fold(INITIAL, data)
  }

  method ComputeUpdate(crc: Byte, byte: Byte) returns (r: Byte)
    ensures r == Update(crc, byte)
  {
    r := crc ^ byte;
    for i := 0 to 8
      invariant ShiftBytes(8 - i, r) == Update(crc, byte)
    {
      r := if r & 0x80 != 0 then (r << 1) ^ 0x31 else r << 1;
    }
  }

  method ComputeChecksum(data: seq<Byte>) returns (crc: Byte)
    ensures crc == Checksum(data)
  {
    crc := 0xff;
    for i := 0 to |data|
      invariant Fold(crc, data[i..]) == Checksum(data)
    {
      assert data[i..][1..] == data[i + 1..];
      crc := ComputeUpdate(crc, data[i]);
    }
  }
}
