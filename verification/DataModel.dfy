/** The shared runtime state: the part that the value registry, the servo and the autopilot
    read and write. */
module DataModel {
  import opened ServoProtocol
  import opened Wrappers

  type UInt16 = n: nat | n < 0x1_0000

  datatype Server = Server(running: bool, port: UInt16)

  datatype Ap = Ap(
    enabled: bool, mode: string, pilot: string,
    heading: real, headingCommand: real, headingError: real, command: real,
    tacking: bool)

  datatype Rudder = Rudder(angle: real, angleValid: bool, offset: real, range: real, raw: Option<real>, rawValid: bool)

  datatype Servo = Servo(
    command: real, current: real, voltage: real, engaged: bool, fault: bool,
    rawCommand: real, flags: Value)

  datatype Model = Model(server: Server, ap: Ap, rudder: Rudder, servo: Servo, imuHeading: real)

  const DEFAULT_PORT: UInt16 := 23322

  const INITIAL_MODEL: Model := Model(
    Server(false, DEFAULT_PORT),
    Ap(false, "compass", "basic", 0.0, 0.0, 0.0, 0.0, false),
    Rudder(0.0, false, 0.0, 45.0, Some(0.0), false),
    Servo(0.0, 0.0, 0.0, false, false, 0.0, 0),
    0.0)

  /** The one object that every component holds a reference to. */
  class PypilotState {
    var model: Model

    constructor ()
      ensures model == INITIAL_MODEL
    {
      model := INITIAL_MODEL;
    }
  }
}
