/** The control loop: one iteration, and the packets that whole voyages send to the motor. */
module Autopilot {
  import opened Bytes
  import opened DataModel
  import opened Heading
  import opened ServoDriver
  import opened ServoProtocol
  import opened ServoTelemetry

  // ---------------------------------------------------------------- one iteration

  function Steer(headingError: real): real {
    Clamp(headingError / 30.0, -1.0, 1.0)
  }

  /** The pilot's part of an iteration: read the compass, compute the error and, unless a tack
      is in progress, the proportional command. */
  function Piloted(m: Model): Model {
    var error := HeadingError(m.ap.headingCommand, m.imuHeading);
    var ap := m.ap.(heading := m.imuHeading, headingError := error);
    if m.ap.tacking then m.(ap := ap)
    else m.(ap := ap.(command := Steer(error)), servo := m.servo.(command := Steer(error)))
  }

  function Iterated(p: Port): Port {
    var p := if p.model.ap.enabled then p else Polled(p);
    var p := p.(model := Piloted(p.model));
    var p := Enable(p, p.model.ap.enabled);
    if p.model.ap.enabled then Polled(p) else p
  }

  class AutopilotLoop {
    const state: PypilotState
    const servo: ServoPort

    constructor (state: PypilotState)
      modifies state
      ensures this.state == state && servo.state == state && fresh(servo)
      ensures servo.Valid() && servo.View() == Opened(old(state.model))
    {
      var port := new ServoPort(state);
      this.state, this.servo := state, port;
    }

    method ReadImu()
      modifies state
      ensures state.model == old(state.model).(ap := old(state.model).ap.(heading := old(state.model).imuHeading))
    {
      state.model := state.model.(ap := state.model.ap.(heading := state.model.imuHeading));
    }

    method UpdateHeadingError()
      modifies state
      ensures state.model ==
              var m := old(state.model);
              m.(ap := m.ap.(headingError := HeadingError(m.ap.headingCommand, m.ap.heading)))
    {
      var error := ComputeHeadingError(state.model.ap.headingCommand, state.model.ap.heading);
      state.model := state.model.(ap := state.model.ap.(headingError := error));
    }

    method ProcessPilot()
      modifies state
      ensures state.model ==
              var m := old(state.model);
              var v := Steer(m.ap.headingError);
              m.(ap := m.ap.(command := v), servo := m.servo.(command := v))
    {
      var command := Clamp(state.model.ap.headingError / 30.0, -1.0, 1.0);
      state.model := state.model.(ap := state.model.ap.(command := command));
      state.model := state.model.(servo := state.model.servo.(command := state.model.ap.command));
    }

    method Iteration()
      requires servo.state == state && servo.Valid()
      modifies state, servo
      ensures servo.Valid() && servo.View() == Iterated(old(servo.View()))
    {
      if !state.model.ap.enabled {
        servo.Poll();
      }
      ReadImu();
      UpdateHeadingError();
      if !state.model.ap.tacking {
        ProcessPilot();
      }
      servo.SetAutopilotEnabled(state.model.ap.enabled);
      if state.model.ap.enabled {
        servo.Poll();
      }
    }
  }

  // ---------------------------------------------------------------- voyages

  /** What the rest of the program sets between two iterations. */
  datatype Setting = Setting(enabled: bool, heading: real, headingCommand: real, tacking: bool)

  datatype Step = Iterate(setting: Setting) | TakeTx

  /** The autopilot at sea; `taken` are the bytes already handed to the driver, and
      `takenOrders` the orders they encode. */
  datatype Voyage = Voyage(port: Port, taken: seq<Byte>, takenOrders: seq<Order>)

  function Prepare(m: Model, s: Setting): Model {
    m.(imuHeading := s.heading, ap := m.ap.(enabled := s.enabled, headingCommand := s.headingCommand, tacking := s.tacking))
  }

  function Next(v: Voyage, step: Step): Voyage {
    match step
    case Iterate(s) => v.(port := Iterated(v.port.(model := Prepare(v.port.model, s))))
    case TakeTx => Voyage(v.port.(tx := []), v.taken + EncodeOrders(v.port.tx), v.takenOrders + v.port.tx)
  }

  function Sail(v: Voyage, steps: seq<Step>): Voyage {
    if |steps| == 0 then v else Next(Sail(v, steps[..|steps| - 1]), steps[|steps| - 1])
  }

  function Settings(steps: seq<Step>): (r: seq<Setting>) {
    if |steps| == 0 then []
    else Settings(steps[..|steps| - 1]) +
         (match steps[|steps| - 1] case Iterate(s) => [s] case TakeTx => [])
  }

  function Launched(m: Model): Voyage {
    Voyage(Opened(m), [], [])
  }

  function Orders(v: Voyage): seq<Order> {
    v.takenOrders + v.port.tx
  }

  /** Everything put on the wire so far, with what is still queued. */
  function Stream(v: Voyage): seq<Byte> {
    v.taken + EncodeOrders(v.port.tx)
  }

  // ---------------------------------------------------------------- what is sent

  /** The steering command in force after iteration `i`: that of the last iteration that was
      not in a tack. */
  function Steering(initial: real, settings: seq<Setting>, i: nat): real
    requires i < |settings|
  {
    if !settings[i].tacking then Steer(HeadingError(settings[i].headingCommand, settings[i].heading))
    else if i == 0 then initial
    else Steering(initial, settings, i - 1)
  }

  /** The order given in iteration `i`. */
  function OrderOf(initial: real, settings: seq<Setting>, i: nat): Order
    requires i < |settings|
  {
    if settings[i].enabled then Command(Scaled(Steering(initial, settings, i)))
    else if i > 0 && settings[i - 1].enabled then Command(Scaled(Steering(initial, settings, i - 1)))
    else Disengage
  }

  function Given(initial: real, settings: seq<Setting>): (r: seq<Order>)
    ensures |r| == |settings| + 1
  {
    [Command(1000)] + seq(|settings|, i requires 0 <= i < |settings| => OrderOf(initial, settings, i))
  }

  /** The state that the orders depend on, as a function of the settings so far. */
  ghost predicate Reached(v: Voyage, initial: real, settings: seq<Setting>) {
    var n := |settings|;
    && v.port.apEnabled == (n > 0 && settings[n - 1].enabled)
    && (n > 0 ==> v.port.model.servo.engaged == settings[n - 1].enabled)
    && v.port.model.servo.command == (if n == 0 then initial else Steering(initial, settings, n - 1))
    && Orders(v) == Given(initial, settings)
    && v.taken == EncodeOrders(v.takenOrders)
  }

  /** One iteration gives exactly one order, and which one depends on the settings of this
      iteration and of the previous one. */
  lemma IterationGives(p: Port)
    ensures var q := Iterated(p);
            && q.tx == p.tx + [if q.apEnabled then Command(Scaled(q.model.servo.command))
                               else if p.apEnabled then Command(Scaled(p.model.servo.command))
                               else Disengage]
            && q.apEnabled == q.model.servo.engaged == p.model.ap.enabled
            && q.model.servo.command ==
               (if p.model.ap.tacking then p.model.servo.command
                else Steer(HeadingError(p.model.ap.headingCommand, p.model.imuHeading)))
  {}

  lemma SteeringPrefix(initial: real, settings: seq<Setting>, more: seq<Setting>, i: nat)
    requires i < |settings|
    ensures Steering(initial, settings + more, i) == Steering(initial, settings, i)
  {}

  lemma GivenSnoc(initial: real, settings: seq<Setting>, s: Setting)
    ensures Given(initial, settings + [s]) ==
            Given(initial, settings) + [OrderOf(initial, settings + [s], |settings|)]
  {
    var all := settings + [s];
    forall i | 0 <= i < |settings| ensures OrderOf(initial, all, i) == OrderOf(initial, settings, i) {
      SteeringPrefix(initial, settings, [s], i);
      if i > 0 {
        SteeringPrefix(initial, settings, [s], i - 1);
      }
    }
  }

  lemma IterationReaches(v: Voyage, initial: real, settings: seq<Setting>, s: Setting)
    requires Reached(v, initial, settings)
    ensures Reached(Next(v, Iterate(s)), initial, settings + [s])
  {
    IterationGives(v.port.(model := Prepare(v.port.model, s)));
    if |settings| > 0 {
      SteeringPrefix(initial, settings, [s], |settings| - 1);
    }
    GivenSnoc(initial, settings, s);
    var o := OrderOf(initial, settings + [s], |settings|);
    assert Orders(Next(v, Iterate(s))) == Orders(v) + [o];
  }

  lemma TakingReaches(v: Voyage, initial: real, settings: seq<Setting>)
    requires Reached(v, initial, settings)
    ensures Reached(Next(v, TakeTx), initial, settings)
  {
    EncodeOrdersConcat(v.takenOrders, v.port.tx);
    assert Orders(Next(v, TakeTx)) == Orders(v);
  }

  lemma {:induction false} VoyageReaches(m: Model, steps: seq<Step>)
    ensures Reached(Sail(Launched(m), steps), m.servo.command, Settings(steps))
    decreases |steps|
  {
    if |steps| == 0 {
      assert Opened(m).tx == [] + [Command(1000)];
    } else {
      var front, step := steps[..|steps| - 1], steps[|steps| - 1];
      VoyageReaches(m, front);
      var v := Sail(Launched(m), front);
      match step
      case Iterate(s) => IterationReaches(v, m.servo.command, Settings(front), s);
      case TakeTx =>
        TakingReaches(v, m.servo.command, Settings(front));
        assert Settings(front) + [] == Settings(front);
    }
  }

  /** Over every voyage, with the queue drained at arbitrary moments: the receiver decodes one
      stand-still command and then exactly one packet per iteration, namely the steering
      command if the autopilot is on, the previous steering command if it has just been
      switched off, and a disengage otherwise. */
  lemma VoyageSends(m: Model, steps: seq<Step>)
    ensures Packets(Stream(Sail(Launched(m), steps))) == OrderPackets(Given(m.servo.command, Settings(steps)))
  {
    VoyageReaches(m, steps);
    var v := Sail(Launched(m), steps);
    EncodeOrdersConcat(v.takenOrders, v.port.tx);
    PacketsOfOrders(Orders(v));
  }

  /** On the wire: a disengage packet is sent exactly in the iterations that are off and come
      first or after one that was off.  Switching off therefore repeats the last command once. */
  lemma SwitchOffLags(m: Model, steps: seq<Step>, i: nat)
    requires i < |Settings(steps)|
    ensures var settings := Settings(steps);
            var sent := Packets(Stream(Sail(Launched(m), steps)));
            var off := !settings[i].enabled && (i == 0 || !settings[i - 1].enabled);
            && |sent| == |settings| + 1
            && sent[i + 1].code == (if off then DISENGAGE_CODE else COMMAND_CODE)
            && (!settings[i].enabled && !off ==> sent[i + 1] == sent[i])
  {
    hide Sail, Stream, Packets, Steering, Scaled;
    VoyageSends(m, steps);
  }
}
