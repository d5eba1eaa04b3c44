/** The servo port: what is queued for the motor driver, and what its telemetry changes. */
module ServoDriver {
  import opened Bytes
  import opened Chunks
  import opened DataModel
  import opened ServoProtocol
  import opened ServoTelemetry
  import opened Wrappers

  const INITIAL_SAMPLE := Sample({}, 0.0, 0.0, None, 0)

  /** The servo and the shared state it writes, as a value; `tx` holds the queued orders. */
  datatype Port = Port(model: Model, tx: seq<Order>, apEnabled: bool, buf: seq<Byte>, sample: Sample)

  function Queued(p: Port, o: Order): Port {
    p.(tx := p.tx + [o])
  }

  function RawCommand(p: Port, value: real): Port {
    var v := Clamp(value, -1.0, 1.0);
    Queued(p.(model := p.model.(servo := p.model.servo.(rawCommand := v))), Command(Scaled(v)))
  }

  function SetEngaged(m: Model, on: bool): Model {
    m.(servo := m.servo.(engaged := on))
  }

  function Disengaged(p: Port): Port {
    var q := Queued(p, Disengage);
    q.(model := SetEngaged(q.model, false))
  }

  function Enable(p: Port, on: bool): Port {
    p.(apEnabled := on, model := SetEngaged(p.model, on))
  }

  function Polled(p: Port): Port {
    if p.apEnabled then RawCommand(p, p.model.servo.command) else Disengaged(p)
  }

  /** Bit 3 of the flag word says that the driver has engaged the motor. */
  predicate EngagedFlag(flags: Value) {
    flags & ENGAGED_FLAG != 0
  }

  function ApplyToServo(v: Servo, mask: set<Channel>, s: Sample): Servo {
    v.(voltage := if Voltage in mask then s.voltage else v.voltage,
       current := if Current in mask then s.current else v.current,
       flags := if Flags in mask then s.flags else v.flags,
       engaged := if Flags in mask then EngagedFlag(s.flags) else v.engaged)
  }

  function ApplyToRudder(r: Rudder, mask: set<Channel>, s: Sample): Rudder {
    if RudderAngle in mask then r.(raw := s.rudder, rawValid := true) else r
  }

  /** Copies the channels named by the mask into the shared state. */
  function ApplySample(m: Model, mask: set<Channel>, s: Sample): Model {
    m.(servo := ApplyToServo(m.servo, mask, s), rudder := ApplyToRudder(m.rudder, mask, s))
  }

  function Fed(p: Port, bytes: seq<Byte>): Port {
    var r := FeedStep(Progress(p.buf, {}, p.sample), bytes);
    p.(buf := r.buf, sample := r.sample, model := ApplySample(p.model, r.mask, r.sample))
  }

  function FedAll(p: Port, chunks: seq<seq<Byte>>): Port
    decreases chunks
  {
    if |chunks| == 0 then p else FedAll(Fed(p, chunks[0]), chunks[1..])
  }

  /** A port just opened: the motor is told to stand still. */
  function Opened(m: Model): Port {
    RawCommand(Port(m, [], false, [], INITIAL_SAMPLE), 0.0)
  }

  class ServoPort {
    const state: PypilotState
    const parser: Parser
    var tx: seq<Byte>
    ghost var orders: seq<Order>
    var apEnabled: bool
    var sample: Sample

    /** The queued bytes are the encoding of the queued orders. */
    ghost predicate Valid()
      reads this
    {
      tx == EncodeOrders(orders)
    }

    ghost function View(): Port
      reads this, state, parser
    {
      Port(state.model, orders, apEnabled, parser.buf, sample)
    }

    constructor (state: PypilotState)
      modifies state
      ensures this.state == state && fresh(parser)
      ensures Valid() && View() == Opened(old(state.model))
    {
      this.state := state;
      this.parser := new Parser();
      tx, orders, apEnabled, sample := [], [], false, INITIAL_SAMPLE;
      new;
      SendRawCommand(0.0);
    }

    method QueueOrder(o: Order)
      requires Valid()
      modifies this`tx, this`orders
      ensures Valid() && View() == Queued(old(View()), o)
    {
      var packet := OrderPacket(o);
      var frame := EncodeFrame(packet.code, packet.value);
      EncodeOrdersSnoc(orders, o);
      tx, orders := tx + frame, orders + [o];
    }

    method SendRawCommand(value: real)
      requires Valid()
      modifies this`tx, this`orders, state
      ensures Valid() && View() == RawCommand(old(View()), value)
    {
      var v := Clamp(value, -1.0, 1.0);
      state.model := state.model.(servo := state.model.servo.(rawCommand := v));
      QueueOrder(Command(Scaled(v)));
    }

    method SendDisengage()
      requires Valid()
      modifies this`tx, this`orders, state
      ensures Valid() && View() == Disengaged(old(View()))
    {
      QueueOrder(Disengage);
      state.model := SetEngaged(state.model, false);
    }

    method SetAutopilotEnabled(on: bool)
      requires Valid()
      modifies this`apEnabled, state
      ensures Valid() && View() == Enable(old(View()), on)
    {
      apEnabled := on;
      state.model := SetEngaged(state.model, on);
    }

    method Poll()
      requires Valid()
      modifies this`tx, this`orders, state
      ensures Valid() && View() == Polled(old(View()))
    {
      if apEnabled {
        SendRawCommand(state.model.servo.command);
      } else {
        SendDisengage();
      }
    }

    method TakeDriverTx() returns (out: seq<Byte>)
      requires Valid()
      modifies this`tx, this`orders
      ensures Valid() && View() == old(View()).(tx := [])
      ensures out == EncodeOrders(old(orders))
    {
      out := tx;
      tx, orders := [], [];
    }

    method FeedDriverBytes(bytes: seq<Byte>) returns (m: set<Channel>)
      modifies this`sample, state, parser
      ensures View() == Fed(old(View()), bytes)
      ensures m == Channels(Packets(old(parser.buf) + bytes))
    {
      var s;
      m, s := parser.Feed(bytes, sample);
      sample := s;
      ApplyDriverSample(m);
    }

    method ApplyDriverSample(m: set<Channel>)
      modifies state
      ensures state.model == ApplySample(old(state.model), m, sample)
    {
      var servo, rudder := state.model.servo, state.model.rudder;
      if Voltage in m { servo := servo.(voltage := sample.voltage); }
      if Current in m { servo := servo.(current := sample.current); }
      if RudderAngle in m { rudder := rudder.(raw := sample.rudder, rawValid := true); }
      if Flags in m { servo := servo.(flags := sample.flags, engaged := EngagedFlag(sample.flags)); }
      state.model := state.model.(servo := servo, rudder := rudder);
    }
  }

  // ---------------------------------------------------------------- telemetry

  /** `s'` differs from `s` only on the channels of `mask`. */
  predicate OnlyChanges(s: Sample, s': Sample, mask: set<Channel>) {
    && (Voltage in mask || s'.voltage == s.voltage)
    && (Current in mask || s'.current == s.current)
    && (RudderAngle in mask || s'.rudder == s.rudder)
    && (Flags in mask || s'.flags == s.flags)
  }

  lemma {:induction false} ApplyAllOnlyChanges(ps: seq<Packet>, s: Sample)
    ensures OnlyChanges(s, ApplyAll(ps, s), Channels(ps))
    decreases ps
  {
    if |ps| > 0 {
      ApplyAllOnlyChanges(ps[1..], ApplyPacket(ps[0], s));
    }
  }

  /** Copying after each read or copying once at the end leaves the same state. */
  lemma ApplySampleTwice(m: Model, mask: set<Channel>, s: Sample, mask': set<Channel>, s': Sample)
    requires OnlyChanges(s, s', mask')
    ensures ApplySample(ApplySample(m, mask, s), mask', s') == ApplySample(m, mask + mask', s')
  {}

  /** The shared state after a stream of telemetry does not depend on how the stream was cut
      into reads. */
  lemma {:induction false} FeedingIrrelevant(p: Port, chunks: seq<seq<Byte>>)
    requires |p.buf| < 4
    ensures FedAll(p, chunks) == Fed(p, Flatten(chunks))
    decreases chunks
  {
    if |chunks| == 0 {
      assert p.buf + [] == p.buf;
    } else {
      FeedingIrrelevant(Fed(p, chunks[0]), chunks[1..]);
      FedTwice(p, chunks[0], Flatten(chunks[1..]));
    }
  }

  lemma FedTwice(p: Port, a: seq<Byte>, b: seq<Byte>)
    ensures Fed(Fed(p, a), b) == Fed(p, a + b)
  {
    var start := Progress(p.buf, {}, p.sample);
    TwoChunks(start, a, b);
    var mid := FeedStep(start, a);
    var ps := Packets(mid.buf + b);
    ApplyAllOnlyChanges(ps, mid.sample);
    ApplySampleTwice(p.model, mid.mask, mid.sample, Channels(ps), ApplyAll(ps, mid.sample));
  }
}
