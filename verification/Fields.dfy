/** The seventeen protocol fields: their names, kinds and access rights, and where each lives in
    the shared state. */
module Fields {
  import opened DataModel
  import opened Wrappers

  datatype Field =
    | ServerRunning | ServerPort | ApEnabled | ApMode | ApPilot | ApHeading
    | ApHeadingCommand | ApHeadingError | ApCommand | RudderAngle
    | RudderOffset | RudderRange | ServoCommand | ServoCurrent | ServoVoltage
    | ServoEngaged | ServoFault

  const FIELD_COUNT := 17

  datatype Kind = RealKind | BooleanKind | StringKind

  datatype Value = RealValue(number: real) | BooleanValue(flag: bool) | StringValue(text: string)

  /** Declaration order, which is also the order of the table. */
  function Index(f: Field): (i: nat)
    ensures i < FIELD_COUNT && FieldAt(i) == f
  {
    match f
    case ServerRunning => 0 case ServerPort => 1 case ApEnabled => 2 case ApMode => 3 case ApPilot => 4
    case ApHeading => 5 case ApHeadingCommand => 6 case ApHeadingError => 7 case ApCommand => 8
    case RudderAngle => 9 case RudderOffset => 10 case RudderRange => 11 case ServoCommand => 12
    case ServoCurrent => 13 case ServoVoltage => 14 case ServoEngaged => 15 case ServoFault => 16
  }

  function FieldAt(i: nat): Field
    requires i < FIELD_COUNT
  {
    match i
    case 0 => ServerRunning case 1 => ServerPort case 2 => ApEnabled case 3 => ApMode case 4 => ApPilot
    case 5 => ApHeading case 6 => ApHeadingCommand case 7 => ApHeadingError case 8 => ApCommand
    case 9 => RudderAngle case 10 => RudderOffset case 11 => RudderRange case 12 => ServoCommand
    case 13 => ServoCurrent case 14 => ServoVoltage case 15 => ServoEngaged case _ => ServoFault
  }

  function Name(f: Field): string {
    match f
    case ServerRunning => "server.running"
    case ServerPort => "server.port"
    case ApEnabled => "ap.enabled"
    case ApMode => "ap.mode"
    case ApPilot => "ap.pilot"
    case ApHeading => "ap.heading"
    case ApHeadingCommand => "ap.heading_command"
    case ApHeadingError => "ap.heading_error"
    case ApCommand => "ap.command"
    case RudderAngle => "rudder.angle"
    case RudderOffset => "rudder.offset"
    case RudderRange => "rudder.range"
    case ServoCommand => "servo.command"
    case ServoCurrent => "servo.current"
    case ServoVoltage => "servo.voltage"
    case ServoEngaged => "servo.engaged"
    case ServoFault => "servo.fault"
  }

  function KindOf(f: Field): Kind {
    match f
    case ServerRunning | ApEnabled | ServoEngaged | ServoFault => BooleanKind
    case ApMode | ApPilot => StringKind
    case _ => RealKind
  }

  predicate Writable(f: Field) {
    f in {ApEnabled, ApMode, ApPilot, ApHeadingCommand, RudderOffset, RudderRange, ServoCommand}
  }

  function TypeName(f: Field): string {
    match f
    case ServerRunning | ServoEngaged | ServoFault => "BooleanValue"
    case ServerPort => "Value"
    case ApEnabled => "BooleanProperty"
    case ApMode | ApPilot => "EnumProperty"
    case ApHeadingCommand | RudderOffset | RudderRange | ServoCommand => "RangeProperty"
    case _ => "SensorValue"
  }

  /** The first field from `i` on with the given name. */
  function FindFrom(name: string, i: nat): (f: Option<Field>)
    requires i <= FIELD_COUNT
    ensures f.Some? ==> Name(f.value) == name
    decreases FIELD_COUNT - i
  {
    if i == FIELD_COUNT then None
    else if name == Name(FieldAt(i)) then Some(FieldAt(i))
    else FindFrom(name, i + 1)
  }

  function Find(name: string): (f: Option<Field>)
    ensures f.Some? ==> Name(f.value) == name
  {
    FindFrom(name, 0)
  }

  // ---------------------------------------------------------------- names

  lemma NamesDistinct(f: Field, g: Field)
    requires Name(f) == Name(g)
    ensures f == g
  {}

  lemma {:induction false} FindFromNone(name: string, i: nat)
    requires i <= FIELD_COUNT
    ensures FindFrom(name, i).None? <==> forall k :: i <= k < FIELD_COUNT ==> Name(FieldAt(k)) != name
    decreases FIELD_COUNT - i
  {
    hide Name, FieldAt;
    if i < FIELD_COUNT {
      FindFromNone(name, i + 1);
    }
  }

  lemma FindName(f: Field)
    ensures Find(Name(f)) == Some(f)
  {
    hide Name, FieldAt;
    FindFromNone(Name(f), 0);
    var g := Find(Name(f));
    assert Name(FieldAt(Index(f))) == Name(f);
    NamesDistinct(f, g.value);
  }

  // ---------------------------------------------------------------- values in the state

  /** Conversion to an unsigned 16-bit integer: toward zero, wrapped. */
  function ToPort(x: real): UInt16 {
    (if x >= 0.0 then x.Floor else -((-x).Floor)) % 0x1_0000
  }

  /** A field's value; only the rudder angle can be unreadable. */
  function Get(m: Model, f: Field): Option<Value> {
    match f
    case ServerRunning => Some(BooleanValue(m.server.running))
    case ServerPort => Some(RealValue(m.server.port as real))
    case ApEnabled => Some(BooleanValue(m.ap.enabled))
    case ApMode => Some(StringValue(m.ap.mode))
    case ApPilot => Some(StringValue(m.ap.pilot))
    case ApHeading => Some(RealValue(m.ap.heading))
    case ApHeadingCommand => Some(RealValue(m.ap.headingCommand))
    case ApHeadingError => Some(RealValue(m.ap.headingError))
    case ApCommand => Some(RealValue(m.ap.command))
    case RudderAngle => if m.rudder.angleValid then Some(RealValue(m.rudder.angle)) else None
    case RudderOffset => Some(RealValue(m.rudder.offset))
    case RudderRange => Some(RealValue(m.rudder.range))
    case ServoCommand => Some(RealValue(m.servo.command))
    case ServoCurrent => Some(RealValue(m.servo.current))
    case ServoVoltage => Some(RealValue(m.servo.voltage))
    case ServoEngaged => Some(BooleanValue(m.servo.engaged))
    case ServoFault => Some(BooleanValue(m.servo.fault))
  }

  /** Storing a value of the field's kind; None for another kind. */
  function Put(m: Model, f: Field, v: Value): Option<Model> {
    match (f, v)
    case (ServerRunning, BooleanValue(b)) => Some(m.(server := m.server.(running := b)))
    case (ServerPort, RealValue(x)) => Some(m.(server := m.server.(port := ToPort(x))))
    case (ApEnabled, BooleanValue(b)) => Some(m.(ap := m.ap.(enabled := b)))
    case (ApMode, StringValue(s)) => Some(m.(ap := m.ap.(mode := s)))
    case (ApPilot, StringValue(s)) => Some(m.(ap := m.ap.(pilot := s)))
    case (ApHeading, RealValue(x)) => Some(m.(ap := m.ap.(heading := x)))
    case (ApHeadingCommand, RealValue(x)) => Some(m.(ap := m.ap.(headingCommand := x)))
    case (ApHeadingError, RealValue(x)) => Some(m.(ap := m.ap.(headingError := x)))
    case (ApCommand, RealValue(x)) => Some(m.(ap := m.ap.(command := x)))
    case (RudderAngle, RealValue(x)) => Some(m.(rudder := m.rudder.(angle := x, angleValid := true)))
    case (RudderOffset, RealValue(x)) => Some(m.(rudder := m.rudder.(offset := x)))
    case (RudderRange, RealValue(x)) => Some(m.(rudder := m.rudder.(range := x)))
    case (ServoCommand, RealValue(x)) => Some(m.(servo := m.servo.(command := x)))
    case (ServoCurrent, RealValue(x)) => Some(m.(servo := m.servo.(current := x)))
    case (ServoVoltage, RealValue(x)) => Some(m.(servo := m.servo.(voltage := x)))
    case (ServoEngaged, BooleanValue(b)) => Some(m.(servo := m.servo.(engaged := b)))
    case (ServoFault, BooleanValue(b)) => Some(m.(servo := m.servo.(fault := b)))
    case _ => None
  }

  predicate HasKind(v: Value, k: Kind) {
    match k
    case RealKind => v.RealValue?
    case BooleanKind => v.BooleanValue?
    case StringKind => v.StringValue?
  }

  /** What a field holds after a value has been stored: the port keeps only whole numbers. */
  function Stored(f: Field, v: Value): Value {
    if f == ServerPort && v.RealValue? then RealValue(ToPort(v.number) as real) else v
  }

  /** Storing succeeds exactly for values of the field's kind, reads back, and touches no other
      field. */
  lemma PutGet(m: Model, f: Field, v: Value, g: Field)
    ensures Put(m, f, v).Some? <==> HasKind(v, KindOf(f))
    ensures Put(m, f, v).Some? ==>
              Get(Put(m, f, v).value, g) == if g == f then Some(Stored(f, v)) else Get(m, g)
  {}

  lemma GetKind(m: Model, f: Field)
    requires Get(m, f).Some?
    ensures HasKind(Get(m, f).value, KindOf(f)) && Stored(f, Get(m, f).value) == Get(m, f).value
  {}
}
