/** The bytes on the servo wire, as literal values, and the steering that they carry. */
module Wire {
  import opened Autopilot
  import opened Bytes
  import opened Crc8
  import opened Crc8Frames
  import opened Crc8Period
  import opened DataModel
  import opened ServoDriver
  import opened ServoProtocol
  import opened ServoTelemetry
  import opened Wrappers

  // ---------------------------------------------------------------- the checksum of known data

  /** One more byte after a known checksum. */
  lemma NextSum(data: seq<Byte>, b: Byte, before: Byte)
    requires Checksum(data) == before
    ensures Checksum(data + [b]) == FourTimes(FourTimes(before ^ b))
  {
    hide FourTimes;
    FoldSnoc(INITIAL, data, b);
    FourShifts(4, before ^ b);
    FourShifts(0, FourTimes(before ^ b));
  }

  /** The register starts with eight ones. */
  lemma EmptySum()
    ensures Checksum([]) == 0xff
  {}

  /** The check value of CRC-8/NRSC-5, polynomial x^8 + x^5 + x^4 + 1: the checksum of the digits
      1 to 9. */
  lemma CheckValue()
    ensures Checksum([0x31, 0x32, 0x33, 0x34, 0x35, 0x36, 0x37, 0x38, 0x39]) == 0xf7
  {
    hide Checksum;
    EmptySum();
    var d0: seq<Byte> := [];
    var d1 := d0 + [0x31];
    NextSum(d0, 0x31, 0xff);
    var d2 := d1 + [0x32];
    NextSum(d1, 0x32, 0x58);
    var d3 := d2 + [0x33];
    NextSum(d2, 0x33, 0x60);
    var d4 := d3 + [0x34];
    NextSum(d3, 0x34, 0x2d);
    var d5 := d4 + [0x35];
    NextSum(d4, 0x35, 0xcb);
    var d6 := d5 + [0x36];
    NextSum(d5, 0x36, 0x9d);
    var d7 := d6 + [0x37];
    NextSum(d6, 0x37, 0x16);
    var d8 := d7 + [0x38];
    NextSum(d7, 0x38, 0xb7);
    var d9 := d8 + [0x39];
    NextSum(d8, 0x39, 0x54);
    assert d9 == [0x31, 0x32, 0x33, 0x34, 0x35, 0x36, 0x37, 0x38, 0x39];
  }

  // ---------------------------------------------------------------- the bytes of a frame

  /** Code, low byte, high byte, and the checksum of these three. */
  lemma FrameBytes(code: Byte, low: Byte, high: Byte)
    ensures var frame := Encode(Packet(code, (low as Value) + 256 * (high as Value)));
            frame == [code, low, high, Checksum([code, low, high])]
  {
    hide Checksum;
    TwoBytes(low, high);
  }

  lemma TwoBytes(low: Byte, high: Byte)
    ensures var v := (low as Value) + 256 * (high as Value); Low(v) == low && High(v) == high
  {}

  /** The command of level 2000, on the wire. */
  lemma FullSpeedFrame()
    ensures Encode(Packet(0xc7, 2000)) == [0xc7, 0xd0, 0x07, 0xdc]
  {
    hide Checksum;
    assert (0xd0 as Value) + 256 * (0x07 as Value) == 2000;
    FrameBytes(0xc7, 0xd0, 0x07);
    EmptySum();
    var d0: seq<Byte> := [];
    var d1 := d0 + [0xc7];
    NextSum(d0, 0xc7, 0xff);
    var d2 := d1 + [0xd0];
    NextSum(d1, 0xd0, 0x7c);
    var d3 := d2 + [0x07];
    NextSum(d2, 0x07, 0x81);
    assert d3 == [0xc7, 0xd0, 0x07];
  }

  /** Letting go of the motor, on the wire. */
  lemma DisengageFrame()
    ensures Encode(OrderPacket(Disengage)) == [0x68, 0x00, 0x00, 0x92]
  {
    hide Checksum;
    assert (0x00 as Value) + 256 * (0x00 as Value) == 0;
    FrameBytes(0x68, 0x00, 0x00);
    EmptySum();
    var d0: seq<Byte> := [];
    var d1 := d0 + [0x68];
    NextSum(d0, 0x68, 0xff);
    var d2 := d1 + [0x00];
    NextSum(d1, 0x00, 0xae);
    var d3 := d2 + [0x00];
    NextSum(d2, 0x00, 0xe3);
    assert d3 == [0x68, 0x00, 0x00];
  }

  // ---------------------------------------------------------------- what is steered

  /** The proportional command for a heading error: a thirtieth of it, between full speed to one
      side and to the other. */
  function Proportional(e: real): (c: real)
    ensures -1.0 <= c <= 1.0
  {
    if e < -30.0 then -1.0 else if e > 30.0 then 1.0 else e / 30.0
  }

  /** A level n stands for a command c if n <= 1000 * (c + 1) < n + 1. */
  predicate LevelFor(n: int, c: real) {
    n as real <= 1000.0 * (c + 1.0) < (n + 1) as real
  }

  lemma LevelRange(n: int, c: real)
    requires -1.0 <= c <= 1.0 && LevelFor(n, c)
    ensures 0 <= n <= 2000
  {}

  /** The command packet for any real value: out of range it is the nearer end. */
  lemma RawCommandSends(p: Port, value: real, n: int)
    requires LevelFor(n, if value < -1.0 then -1.0 else if value > 1.0 then 1.0 else value)
    ensures 0 <= n <= 2000
    ensures var q := RawCommand(p, value);
            && q.tx == p.tx + [Command(n)]
            && q.model.servo.rawCommand == (if value < -1.0 then -1.0 else if value > 1.0 then 1.0 else value)
  {}

  /** The course that a setting asks for, off by whole turns. */
  predicate OffCourse(s: Setting, e: real, turns: int) {
    -180.0 <= e < 180.0 && s.headingCommand - s.heading == e + 360.0 * turns as real
  }

  lemma SteerIs(s: Setting, e: real, turns: int)
    requires OffCourse(s, e, turns)
    ensures Steer(Heading.HeadingError(s.headingCommand, s.heading)) == Proportional(e)
  {
    assert Heading.TurnsApart(s.headingCommand - s.heading, e, turns);
    Heading.ResolvedUnique(s.headingCommand - s.heading, e);
  }

  lemma {:induction false} SteeringHolds(initial: real, settings: seq<Setting>, j: nat, i: nat)
    requires j <= i < |settings| && !settings[j].tacking && forall k :: j < k <= i ==> settings[k].tacking
    ensures Steering(initial, settings, i) == Steering(initial, settings, j)
    decreases i
  {
    if j < i {
      SteeringHolds(initial, settings, j, i - 1);
    }
  }

  /** Over every run: the packet of an iteration that is enabled carries the proportional command
      for the heading error of the last iteration that was not in a tack: above 1000 if the shorter
      way from the heading to the commanded heading goes clockwise. */
  lemma EnabledSteers(m: Model, steps: seq<Step>, j: nat, i: nat, e: real, turns: int, n: int)
    requires var settings := Settings(steps);
             && j <= i < |settings| && settings[i].enabled && !settings[j].tacking
             && (forall k :: j < k <= i ==> settings[k].tacking)
             && OffCourse(settings[j], e, turns)
    requires LevelFor(n, Proportional(e))
    ensures 0 <= n <= 2000
    ensures var sent := Packets(Stream(Sail(Launched(m), steps)));
            |sent| > i + 1 && sent[i + 1] == Packet(0xc7, n as Value)
  {
    hide Sail, Stream, Packets, Steer, Settings;
    var settings := Settings(steps);
    LevelRange(n, Proportional(e));
    VoyageSends(m, steps);
    SteeringHolds(m.servo.command, settings, j, i);
    SteerIs(settings[j], e, turns);
    ScaledIs(Proportional(e), n);
  }

  lemma ScaledIs(c: real, n: int)
    requires -1.0 <= c <= 1.0 && LevelFor(n, c)
    ensures Scaled(c) == n
  {}

  // ---------------------------------------------------------------- telemetry

  /** The packets after the last one with the given code have other codes. */
  predicate NoMore(ps: seq<Packet>, code: Byte) {
    forall k :: 0 <= k < |ps| ==> ps[k].code != code
  }

  lemma {:induction false} LaterPacketsKeep(ps: seq<Packet>, s: Sample)
    ensures var s' := ApplyAll(ps, s);
            && (NoMore(ps, 0xb3) ==> s'.voltage == s.voltage)
            && (NoMore(ps, 0x1c) ==> s'.current == s.current)
            && (NoMore(ps, 0xa7) ==> s'.rudder == s.rudder)
            && (NoMore(ps, 0x8f) ==> s'.flags == s.flags)
    decreases |ps|
  {
    if |ps| > 0 {
      LaterPacketsKeep(ps[1..], ApplyPacket(ps[0], s));
    }
  }

  /** What one packet leaves in the sample. */
  predicate Leaves(p: Packet, s: Sample) {
    && (p.code == 0xb3 ==> s.voltage * 100.0 == p.value as int as real)
    && (p.code == 0x1c ==> s.current * 100.0 == p.value as int as real)
    && (p.code == 0xa7 ==> s.rudder.Some? && (s.rudder.value + 0.5) * 65472.0 == p.value as int as real)
    && (p.code == 0x8f ==> s.flags == p.value)
  }

  lemma PacketLeaves(p: Packet, s: Sample)
    ensures Leaves(p, ApplyPacket(p, s))
  {}

  /** The state shows what the last valid frame of each kind said: voltage and current in
      hundredths, the rudder position in 65472ths from one end, and the flag word, whose bit 3 says
      whether the motor is engaged. */
  predicate Shows(m: Model, p: Packet) {
    && (p.code == 0xb3 ==> m.servo.voltage * 100.0 == p.value as int as real)
    && (p.code == 0x1c ==> m.servo.current * 100.0 == p.value as int as real)
    && (p.code == 0xa7 ==> m.rudder.rawValid && m.rudder.raw.Some? && (m.rudder.raw.value + 0.5) * 65472.0 == p.value as int as real)
    && (p.code == 0x8f ==> m.servo.flags == p.value && (m.servo.engaged <==> (p.value >> 3) & 1 == 1))
  }

  lemma {:induction false} LastPacketInSample(ps: seq<Packet>, k: nat, s: Sample)
    requires k < |ps| && NoMore(ps[k + 1..], ps[k].code)
    ensures Leaves(ps[k], ApplyAll(ps, s)) && ChannelOf(ps[k]) <= Channels(ps)
    decreases k
  {
    hide ApplyPacket, ChannelOf;
    if k == 0 {
      PacketLeaves(ps[0], s);
      LaterPacketsKeep(ps[1..], ApplyPacket(ps[0], s));
    } else {
      assert ps[1..][k - 1 + 1..] == ps[k + 1..];
      LastPacketInSample(ps[1..], k - 1, ApplyPacket(ps[0], s));
    }
  }

  lemma CopiedShows(m: Model, mask: set<Channel>, s: Sample, p: Packet)
    requires Leaves(p, s) && ChannelOf(p) <= mask
    ensures Shows(ApplySample(m, mask, s), p)
  {
    BitThree(p.value);
  }

  lemma BitThree(v: Value)
    ensures EngagedFlag(v) <==> (v >> 3) & 1 == 1
  {}

  /** After any telemetry, in any chunks, the shared state shows the last valid frame of each
      code. */
  lemma TelemetryShown(p: Port, chunks: seq<seq<Byte>>, k: nat)
    requires |p.buf| < 4
    requires var ps := Packets(p.buf + Chunks.Flatten(chunks)); k < |ps| && NoMore(ps[k + 1..], ps[k].code)
    ensures Shows(FedAll(p, chunks).model, Packets(p.buf + Chunks.Flatten(chunks))[k])
  {
    hide Packets, ApplySample, Shows, Leaves, ChannelOf, Channels, ApplyAll, FedAll;
    FeedingIrrelevant(p, chunks);
    var ps := Packets(p.buf + Chunks.Flatten(chunks));
    LastPacketInSample(ps, k, p.sample);
    CopiedShows(p.model, Channels(ps), ApplyAll(ps, p.sample), ps[k]);
    assert {} + Channels(ps) == Channels(ps);
  }
}
