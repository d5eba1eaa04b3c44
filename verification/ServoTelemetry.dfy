/** What the telemetry parser promises about whole streams: the way a stream is cut into reads
    does not matter, and a damaged frame takes away nothing but itself. */
module ServoTelemetry {
  import opened Bytes
  import opened Chunks
  import opened Crc8Frames
  import opened Crc8Register
  import opened ShiftRegister
  import opened ServoProtocol

  lemma {:induction false} PacketsAligned(a: seq<Byte>, b: seq<Byte>)
    requires |a| % 4 == 0
    ensures Packets(a + b) == Packets(a) + Packets(b)
    decreases |a|
  {
    if |a| == 0 {
      assert a + b == b;
    } else {
      assert (a + b)[..4] == a[..4];
      assert (a + b)[4..] == a[4..] + b;
      PacketsAligned(a[4..], b);
    }
  }

  /** The part of `a` that `Leftover` leaves out. */
  function Whole(a: seq<Byte>): seq<Byte> {
    a[..|a| - |a| % 4]
  }

  lemma SplitWhole(a: seq<Byte>)
    ensures a == Whole(a) + Leftover(a) && |Whole(a)| % 4 == 0
  {}

  lemma PacketsConcat(a: seq<Byte>, b: seq<Byte>)
    ensures Packets(a + b) == Packets(a) + Packets(Leftover(a) + b)
  {
    hide Decoded;
    var w, l := Whole(a), Leftover(a);
    SplitWhole(a);
    PacketsAligned(w, l);
    PacketsAligned(w, l + b);
    assert w + (l + b) == w + l + b;
    assert Packets(l) == [];
  }

  datatype Progress = Progress(buf: seq<Byte>, mask: set<Channel>, sample: Sample)

  /** One call of `Parser.Feed`, with the returned masks collected. */
  function FeedStep(p: Progress, chunk: seq<Byte>): Progress {
    var ps := Packets(p.buf + chunk);
    Progress(Leftover(p.buf + chunk), p.mask + Channels(ps), ApplyAll(ps, p.sample))
  }

  function FeedAll(p: Progress, chunks: seq<seq<Byte>>): Progress
    decreases chunks
  {
    if |chunks| == 0 then p else FeedAll(FeedStep(p, chunks[0]), chunks[1..])
  }

  /** Feeding a stream in pieces, however it is cut, ends with the same sample, the same union
      of masks and the same buffered bytes as feeding it at once. */
  lemma {:induction false} ChunkingIrrelevant(p: Progress, chunks: seq<seq<Byte>>)
    requires |p.buf| < 4
    ensures FeedAll(p, chunks) == FeedStep(p, Flatten(chunks))
    decreases chunks
  {
    if |chunks| == 0 {
      assert p.buf + [] == p.buf;
    } else {
      ChunkingIrrelevant(FeedStep(p, chunks[0]), chunks[1..]);
      TwoChunks(p, chunks[0], Flatten(chunks[1..]));
    }
  }

  lemma TwoChunks(p: Progress, a: seq<Byte>, b: seq<Byte>)
    ensures FeedStep(FeedStep(p, a), b) == FeedStep(p, a + b)
  {
    hide Packets, Leftover, ApplyAll, Channels;
    var x := p.buf + a;
    assert p.buf + (a + b) == x + b;
    PacketsConcat(x, b);
    ApplyAllConcat(Packets(x), Packets(Leftover(x) + b), p.sample);
    LeftoverConcat(x, b);
  }

  lemma LeftoverConcat(a: seq<Byte>, b: seq<Byte>)
    ensures Leftover(a + b) == Leftover(Leftover(a) + b)
  {
    var k := |a| - |a| % 4;
    assert a + b == a[..k] + (Leftover(a) + b);
  }

  /** A frame that decodes to nothing could as well not have been sent. */
  lemma RejectedFrameSkipped(p: Progress, before: seq<Byte>, frame: seq<Byte>, after: seq<Byte>)
    requires |p.buf + before| % 4 == 0 && |frame| == 4 && Decode(frame).None?
    ensures FeedStep(p, before + frame + after) == FeedStep(p, before + after)
  {
    hide Decode;
    var mid := FeedStep(p, before);
    TwoChunks(p, before, frame + after);
    TwoChunks(p, before, after);
    TwoChunks(mid, frame, after);
    RejectedFrameAlone(mid, frame);
    assert before + frame + after == before + (frame + after);
  }

  lemma RejectedFrameAlone(p: Progress, frame: seq<Byte>)
    requires p.buf == [] && |frame| == 4 && Decode(frame).None?
    ensures FeedStep(p, frame) == p
  {
    hide Decode;
    assert p.buf + frame == frame;
    assert frame[..4] == frame && frame[4..] == [];
    assert Packets(frame) == Decoded(frame) + Packets([]);
  }

  /** Damage that the checksum is sure to catch removes one frame's contribution from the
      stream and leaves every other frame's in place. */
  lemma DamageIsIsolated(p: Progress, before: seq<Byte>, packet: Packet, e: seq<Byte>, at: nat, after: seq<Byte>)
    requires |p.buf + before| % 4 == 0 && |e| == 4
    requires 1 <= Weight(Bits(e)) <= 3 || (!Clear(Bits(e)) && Within(Bits(e), at, at + 8))
    ensures FeedStep(p, before + Corrupt(Encode(packet), e) + after) == FeedStep(p, before + after)
  {
    DamagedFrameRejected(packet, e, at);
    RejectedFrameSkipped(p, before, Corrupt(Encode(packet), e), after);
  }

  lemma PacketsOfFrame(packet: Packet)
    ensures Packets(Encode(packet)) == [packet]
  {
    var frame := Encode(packet);
    DecodeEncode(packet);
    assert frame[..4] == frame && frame[4..] == [];
    assert Packets(frame) == Decoded(frame) + Packets([]);
  }

  function OrderPackets(os: seq<Order>): seq<Packet> {
    seq(|os|, i requires 0 <= i < |os| => OrderPacket(os[i]))
  }

  /** The receiver reads back exactly the queued orders, one packet each. */
  lemma {:induction false} PacketsOfOrders(os: seq<Order>)
    ensures |EncodeOrders(os)| % 4 == 0 && Packets(EncodeOrders(os)) == OrderPackets(os)
    decreases |os|
  {
    hide Encode, Decode;
    if |os| > 0 {
      var front, packet := os[..|os| - 1], OrderPacket(os[|os| - 1]);
      PacketsOfOrders(front);
      PacketsAligned(EncodeOrders(front), Encode(packet));
      PacketsOfFrame(packet);
      assert OrderPackets(os) == OrderPackets(front) + [packet];
    }
  }

  lemma {:induction false} EncodeOrdersConcat(a: seq<Order>, b: seq<Order>)
    ensures EncodeOrders(a + b) == EncodeOrders(a) + EncodeOrders(b)
    decreases |b|
  {
    hide Encode;
    if |b| == 0 {
      assert a + b == a;
    } else {
      var front, o := b[..|b| - 1], b[|b| - 1];
      EncodeOrdersConcat(a, front);
      assert a + b == a + front + [o];
      EncodeOrdersSnoc(a + front, o);
    }
  }
}
