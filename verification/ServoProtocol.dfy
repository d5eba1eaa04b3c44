/** The servo wire protocol: four-byte frames and the incremental telemetry parser. */
module ServoProtocol {
  import opened Bytes
  import opened Crc8
  import opened Crc8Errors
  import opened Crc8Frames
  import opened Crc8Register
  import opened ShiftRegister
  import opened Wrappers

  type Value = bv16

  const COMMAND_CODE: Byte := 0xc7
  const RESET_CODE: Byte := 0xe7
  const DISENGAGE_CODE: Byte := 0x68
  const VOLTAGE_CODE: Byte := 0xb3
  const CURRENT_CODE: Byte := 0x1c
  const RUDDER_CODE: Byte := 0xa7
  const FLAGS_CODE: Byte := 0x8f

  const ENGAGED_FLAG: Value := 8

  datatype Packet = Packet(code: Byte, value: Value)

  /** The telemetry channels; a set of them is the source's bit mask. */
  datatype Channel = Flags | Current | Voltage | RudderAngle

  datatype Sample = Sample(mask: set<Channel>, current: real, voltage: real, rudder: Option<real>, flags: Value)

  // ---------------------------------------------------------------- frames

  function Low(v: Value): Byte { (v & 0xff) as Byte }

  function High(v: Value): Byte { ((v >> 8) & 0xff) as Byte }

  function Join(low: Byte, high: Byte): Value { (low as Value) | ((high as Value) << 8) }

  lemma JoinSplit(v: Value)
    ensures Join(Low(v), High(v)) == v
  {}

  lemma SplitJoin(low: Byte, high: Byte)
    ensures Low(Join(low, high)) == low && High(Join(low, high)) == high
  {}

  function Encode(p: Packet): (frame: seq<Byte>)
    ensures |frame| == 4
  {
    Sealed([p.code, Low(p.value), High(p.value)])
  }

  function Decode(frame: seq<Byte>): Option<Packet>
    requires |frame| >= 4
  {
    if Checksum(frame[..3]) == frame[3] then Some(Packet(frame[0], Join(frame[1], frame[2]))) else None
  }

  method EncodeFrame(code: Byte, value: Value) returns (out: seq<Byte>)
    ensures out == Encode(Packet(code, value))
  {
    out := [code, (value & 0xff) as Byte, ((value >> 8) & 0xff) as Byte, 0];
    var crc := ComputeChecksum(out[..3]);
    assert out[..3] == [code, Low(value), High(value)];
    out := out[3 := crc];
  }

  method DecodeFrame(bytes: seq<Byte>) returns (packet: Option<Packet>)
    requires |bytes| >= 4
    ensures packet == Decode(bytes)
  {
    var crc := ComputeChecksum(bytes[..3]);
    if crc != bytes[3] {
      return None;
    }
    packet := Some(Packet(bytes[0], (bytes[1] as Value) | ((bytes[2] as Value) << 8)));
  }

  lemma DecodeEncode(p: Packet)
    ensures Decode(Encode(p)) == Some(p)
  {}

  /** Decoding accepts nothing but encoder output: together the two are a bijection between
      packets and valid frames. */
  lemma EncodeDecode(frame: seq<Byte>)
    requires |frame| == 4 && Decode(frame).Some?
    ensures Encode(Decode(frame).value) == frame
  {
    var p := Decode(frame).value;
    SplitJoin(frame[1], frame[2]);
    assert frame[..3] == [p.code, Low(p.value), High(p.value)];
    assert frame == frame[..3] + [frame[3]];
  }

  /** One, two or three flipped bits, or any burst within eight bits, make decoding fail. */
  lemma DamagedFrameRejected(p: Packet, e: seq<Byte>, at: nat)
    requires |e| == 4
    requires 1 <= Weight(Bits(e)) <= 3 || (!Clear(Bits(e)) && Within(Bits(e), at, at + 8))
    ensures Decode(Corrupt(Encode(p), e)) == None
  {
    var data := [p.code, Low(p.value), High(p.value)];
    var bad := Corrupt(Sealed(data), e);
    if 1 <= Weight(Bits(e)) <= 3 {
      SmallErrorsRejected(data, e);
    } else {
      BurstsRejected(data, e, at);
    }
    assert bad[..|bad| - 1] == bad[..3];
  }

  // ---------------------------------------------------------------- commands

  function Clamp(x: real, lo: real, hi: real): (r: real)
    requires lo <= hi
    ensures lo <= r <= hi
  {
    if x < lo then lo else if hi < x then hi else x
  }

  type Level = n: nat | n <= 2000

  /** What the servo can tell the motor driver.  A command level of 1000 stands still. */
  datatype Order = Command(level: Level) | Disengage | Reset

  function Scaled(command: real): Level {
    ((Clamp(command, -1.0, 1.0) + 1.0) * 1000.0).Floor
  }

  function OrderPacket(o: Order): Packet {
    match o
    case Command(level) => Packet(COMMAND_CODE, level as Value)
    case Disengage => Packet(DISENGAGE_CODE, 0)
    case Reset => Packet(RESET_CODE, 0)
  }

  function EncodeOrders(os: seq<Order>): seq<Byte> {
    if |os| == 0 then [] else EncodeOrders(os[..|os| - 1]) + Encode(OrderPacket(os[|os| - 1]))
  }

  lemma EncodeOrdersSnoc(os: seq<Order>, o: Order)
    ensures EncodeOrders(os + [o]) == EncodeOrders(os) + Encode(OrderPacket(o))
  {}

  // ---------------------------------------------------------------- the parser

  function Decoded(frame: seq<Byte>): seq<Packet>
    requires |frame| >= 4
  {
    match Decode(frame) case Some(p) => [p] case None => []
  }

  /** The packets of the valid frames among the complete four-byte blocks of a stream. */
  function Packets(bytes: seq<Byte>): seq<Packet> {
    if |bytes| < 4 then []
    else Decoded(bytes[..4]) + Packets(bytes[4..])
  }

  /** The bytes after the last complete block. */
  function Leftover(bytes: seq<Byte>): (r: seq<Byte>)
    ensures |r| == |bytes| % 4
  {
    bytes[|bytes| - |bytes| % 4..]
  }

  function ChannelOf(p: Packet): set<Channel> {
    if p.code == VOLTAGE_CODE then {Voltage}
    else if p.code == CURRENT_CODE then {Current}
    else if p.code == RUDDER_CODE then {RudderAngle}
    else if p.code == FLAGS_CODE then {Flags}
    else {}
  }

  function ApplyPacket(p: Packet, s: Sample): Sample {
    var s' := s.(mask := s.mask + ChannelOf(p));
    if p.code == VOLTAGE_CODE then s'.(voltage := p.value as int as real / 100.0)
    else if p.code == CURRENT_CODE then s'.(current := p.value as int as real / 100.0)
    else if p.code == RUDDER_CODE then s'.(rudder := Some(p.value as int as real / 65472.0 - 0.5))
    else if p.code == FLAGS_CODE then s'.(flags := p.value)
    else s'
  }

  function ApplyAll(ps: seq<Packet>, s: Sample): Sample
    decreases ps
  {
    if |ps| == 0 then s else ApplyAll(ps[1..], ApplyPacket(ps[0], s))
  }

  function Channels(ps: seq<Packet>): set<Channel>
    decreases ps
  {
    if |ps| == 0 then {} else ChannelOf(ps[0]) + Channels(ps[1..])
  }

  lemma {:induction false} ApplyAllConcat(a: seq<Packet>, b: seq<Packet>, s: Sample)
    ensures ApplyAll(a + b, s) == ApplyAll(b, ApplyAll(a, s))
    ensures Channels(a + b) == Channels(a) + Channels(b)
    decreases a
  {
    if |a| == 0 {
      assert a + b == b;
    } else {
      assert (a + b)[1..] == a[1..] + b;
      ApplyAllConcat(a[1..], b, ApplyPacket(a[0], s));
    }
  }

  class Parser {
    var buf: seq<Byte>

    constructor ()
      ensures buf == []
    {
      buf := [];
    }

    method Feed(b: seq<Byte>, s: Sample) returns (m: set<Channel>, s': Sample)
      modifies this
      ensures buf == Leftover(old(buf) + b)
      ensures m == Channels(Packets(old(buf) + b))
      ensures s' == ApplyAll(Packets(old(buf) + b), s)
    {
      for i := 0 to |b|
        invariant buf == old(buf) + b[..i]
      {
        buf := buf + [b[i]];
      }
      assert b[..|b|] == b;
      m, s' := DrainBlocks(s);
    }

    method DrainBlocks(s: Sample) returns (m: set<Channel>, s': Sample)
      modifies this
      ensures buf == Leftover(old(buf))
      ensures m == Channels(Packets(old(buf)))
      ensures s' == ApplyAll(Packets(old(buf)), s)
    {
      hide Decode;
      m, s' := {}, s;
      while |buf| >= 4
        invariant Leftover(buf) == Leftover(old(buf))
        invariant ApplyAll(Packets(buf), s') == ApplyAll(Packets(old(buf)), s)
        invariant m + Channels(Packets(buf)) == Channels(Packets(old(buf)))
        decreases |buf|
      {
        var packet := DecodeFrame(buf[..4]);
        BlockStep(buf, s', m);
        if packet.Some? {
          m, s' := m + ChannelOf(packet.value), ApplyPacket(packet.value, s');
        }
        buf := buf[4..];
      }
    }
  }

  /** What taking one block off the buffer leaves to be done. */
  lemma BlockStep(buf: seq<Byte>, s: Sample, m: set<Channel>)
    requires |buf| >= 4
    ensures Leftover(buf[4..]) == Leftover(buf)
    ensures match Decode(buf[..4])
            case Some(p) =>
              && ApplyAll(Packets(buf[4..]), ApplyPacket(p, s)) == ApplyAll(Packets(buf), s)
              && m + ChannelOf(p) + Channels(Packets(buf[4..])) == m + Channels(Packets(buf))
            case None => Packets(buf[4..]) == Packets(buf)
  {}
}
