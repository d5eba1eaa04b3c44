/** The value registry: protocol names for the shared state, a bounded table of watches and a
    dirty bit for each field. */
module Values {
  import opened DataModel
  import opened Decimal
  import opened Fields
  import opened Grid
  import opened Text
  import opened Wrappers

  const MAX_WATCHES := 64

  datatype Watch = Watch(active: bool, field: Field, period: real, due: nat)

  const EMPTY_WATCH := Watch(false, ServerRunning, 0.0, 0)

  datatype Registry = Registry(model: Model, watches: seq<Watch>, dirty: seq<bool>)

  // ---------------------------------------------------------------- text of values

  function BoolText(b: bool): string {
    if b then "true" else "false"
  }

  /** Backslashes before quotes and backslashes, nothing else. */
  function EscapedQuotes(s: string): string {
    if |s| == 0 then ""
    else
      var c := s[|s| - 1];
      EscapedQuotes(s[..|s| - 1]) + (if c == '"' || c == '\\' then "\\" else "") + [c]
  }

  function ValueText(v: Value): string {
    match v
    case RealValue(x) => FixedText(x, 4)
    case BooleanValue(b) => BoolText(b)
    case StringValue(s) => "\"" + EscapedQuotes(s) + "\""
  }

  /** A value line; a value that cannot be read leaves the line without value and end. */
  function LineOf(m: Model, f: Field): string {
    Name(f) + "=" + (match Get(m, f) case Some(v) => ValueText(v) + "\n" case None => "")
  }

  class StringValueWriter {
    var text: string

    constructor ()
      ensures text == ""
    {
      text := "";
    }

    method Write(s: string)
      modifies this
      ensures text == old(text) + s
    {
      text := text + s;
    }

    method WriteJsonString(s: string)
      modifies this
      ensures text == old(text) + ("\"" + EscapedQuotes(s) + "\"")
    {
      Write("\"");
      for i := 0 to |s|
        invariant text == old(text) + "\"" + EscapedQuotes(s[..i])
      {
        assert s[..i + 1][..i] == s[..i];
        if s[i] == '"' || s[i] == '\\' {
          Write("\\");
        }
        Write([s[i]]);
      }
      assert s[..|s|] == s;
      Write("\"");
    }

    method WriteValue(v: Value)
      modifies this
      ensures text == old(text) + ValueText(v)
    {
      match v
      case RealValue(x) => Write(FixedText(x, 4));
      case BooleanValue(b) => Write(if b then "true" else "false");
      case StringValue(s) => WriteJsonString(s);
    }
  }

  // ---------------------------------------------------------------- setting fields

  function SetField(r: Registry, f: Field, v: Value): (Registry, bool)
    requires |r.dirty| == FIELD_COUNT
  {
    match Put(r.model, f, v)
    case Some(m) => (r.(model := m, dirty := r.dirty[Index(f) := true]), true)
    case None => (r, false)
  }

  function ParseBool(s: string): Option<bool> {
    if s == "true" || s == "True" || s == "1" then Some(true)
    else if s == "false" || s == "False" || s == "0" then Some(false)
    else None
  }

  /** Numbers are read through a buffer of 32 characters. */
  function ParseReal(s: string): Option<real> {
    Strtof(if |s| <= 31 then s else s[..31])
  }

  function StripQuotes(s: string): string {
    if |s| >= 2 && s[0] == '"' && s[|s| - 1] == '"' then s[1..|s| - 1] else s
  }

  /** The value that a wire text stands for, for a field of the given kind. */
  function ParseValue(wire: string, k: Kind): Option<Value> {
    match k
    case RealKind => (match ParseReal(wire) case Some(x) => Some(RealValue(x)) case None => None)
    case BooleanKind => (match ParseBool(wire) case Some(b) => Some(BooleanValue(b)) case None => None)
    case StringKind => Some(StringValue(StripQuotes(wire)))
  }

  function SetFromWire(r: Registry, name: string, wire: string, externalWrite: bool): (Registry, bool)
    requires |r.dirty| == FIELD_COUNT
  {
    match Find(name)
    case None => (r, false)
    case Some(f) =>
      if externalWrite && !Writable(f) then (r, false)
      else match ParseValue(wire, KindOf(f))
        case None => (r, false)
        case Some(v) => SetField(r, f, v)
  }

  // ---------------------------------------------------------------- watches

  function PeriodUs(seconds: real): nat {
    if seconds <= 0.0 then 0 else (seconds * 1000000.0).Floor
  }

  /** Index of the first active watch of a field, or the table size. */
  function FindWatch(ws: seq<Watch>, f: Field, from: nat := 0): (i: nat)
    requires from <= |ws|
    ensures from <= i <= |ws|
    ensures forall k :: from <= k < i ==> !(ws[k].active && ws[k].field == f)
    ensures i < |ws| ==> ws[i].active && ws[i].field == f
    decreases |ws| - from
  {
    if from == |ws| || (ws[from].active && ws[from].field == f) then from else FindWatch(ws, f, from + 1)
  }

  function FreeWatch(ws: seq<Watch>, from: nat := 0): (i: nat)
    requires from <= |ws|
    ensures from <= i <= |ws|
    ensures forall k :: from <= k < i ==> ws[k].active
    ensures i < |ws| ==> !ws[i].active
    decreases |ws| - from
  {
    if from == |ws| || !ws[from].active then from else FreeWatch(ws, from + 1)
  }

  /** The slot that a watch of the field goes to: its own, or the first free one. */
  function SlotFor(ws: seq<Watch>, f: Field): nat {
    var i := FindWatch(ws, f);
    if i < |ws| then i else FreeWatch(ws)
  }

  function NewWatch(f: Field, period: real, now: nat): Watch {
    Watch(true, f, period, now + PeriodUs(period))
  }

  function WatchField(r: Registry, f: Field, period: real, now: nat): (Registry, bool) {
    var i := SlotFor(r.watches, f);
    if i < |r.watches| then (r.(watches := r.watches[i := NewWatch(f, period, now)]), true) else (r, false)
  }

  /** The new registry, the initial line, and whether the watch is in force. */
  function WatchName(r: Registry, name: string, period: real, now: nat): (Registry, string, bool) {
    match Find(name)
    case None => (r, "", false)
    case Some(f) =>
      var (r', ok) := WatchField(r, f, period, now);
      (r', LineOf(r.model, f), ok)
  }

  function Dropped(ws: seq<Watch>, f: Field): (ws': seq<Watch>)
    ensures |ws'| == |ws|
  {
    seq(|ws|, i requires 0 <= i < |ws| => if ws[i].active && ws[i].field == f then ws[i].(active := false) else ws[i])
  }

  function UnwatchName(r: Registry, name: string): (Registry, bool) {
    match Find(name)
    case None => (r, false)
    case Some(f) => (r.(watches := Dropped(r.watches, f)), true)
  }

  // ---------------------------------------------------------------- emission

  /** Someone asked for every change of the field, from slot `from` on. */
  predicate Immediate(ws: seq<Watch>, f: Field, from: nat := 0)
    requires from <= |ws|
    decreases |ws| - from
  {
    from < |ws| && ((ws[from].active && ws[from].field == f && ws[from].period == 0.0) || Immediate(ws, f, from + 1))
  }

  function ChangedLine(r: Registry, i: nat): string
    requires |r.dirty| == FIELD_COUNT && i < FIELD_COUNT
  {
    if r.dirty[i] && Immediate(r.watches, FieldAt(i)) then LineOf(r.model, FieldAt(i)) else ""
  }

  /** The lines for the dirty fields from index `i` on. */
  function ChangedText(r: Registry, i: nat): string
    requires |r.dirty| == FIELD_COUNT && i <= FIELD_COUNT
    decreases FIELD_COUNT - i
  {
    if i == FIELD_COUNT then ""
    else ChangedLine(r, i) + ChangedText(r, i + 1)
  }

  /** What is emitted for a field depends on its own dirty bit only. */
  lemma SameChangedLine(r: Registry, r': Registry, i: nat)
    requires |r.dirty| == |r'.dirty| == FIELD_COUNT && i < FIELD_COUNT
    requires r.model == r'.model && r.watches == r'.watches && r.dirty[i] == r'.dirty[i]
    ensures ChangedLine(r, i) == ChangedLine(r', i)
  {}

  lemma Regroup(a: string, b: string, c: string)
    ensures a + b + c == a + (b + c)
  {}

  function AllClean(): seq<bool> {
    seq(FIELD_COUNT, i => false)
  }

  function EmitChanged(r: Registry): (Registry, string)
    requires |r.dirty| == FIELD_COUNT
  {
    (r.(dirty := AllClean()), ChangedText(r, 0))
  }

  predicate DueNow(w: Watch, now: nat) {
    w.active && w.period > 0.0 && now >= w.due
  }

  /** A period below one microsecond leaves the due time where it is. */
  function NextDue(w: Watch, now: nat): nat {
    var p := PeriodUs(w.period);
    if p == 0 then w.due else Advance(w.due, p, now)
  }

  function Rescheduled(w: Watch, now: nat): Watch {
    if DueNow(w, now) then w.(due := NextDue(w, now)) else w
  }

  function AllRescheduled(ws: seq<Watch>, now: nat): (ws': seq<Watch>)
    ensures |ws'| == |ws|
  {
    seq(|ws|, i requires 0 <= i < |ws| => Rescheduled(ws[i], now))
  }

  /** The lines for the due watches from slot `i` on. */
  function DueText(m: Model, ws: seq<Watch>, now: nat, i: nat): string
    requires i <= |ws|
    decreases |ws| - i
  {
    if i == |ws| then ""
    else (if DueNow(ws[i], now) then LineOf(m, ws[i].field) else "") + DueText(m, ws, now, i + 1)
  }

  function EmitDue(r: Registry, now: nat): (Registry, string) {
    (r.(watches := AllRescheduled(r.watches, now)), DueText(r.model, r.watches, now, 0))
  }

  // ---------------------------------------------------------------- the registry object

  class ValueRegistry {
    const state: PypilotState
    const watches: array<Watch>
    const dirty: array<bool>

    ghost predicate Valid()
      reads this
    {
      watches.Length == MAX_WATCHES && dirty.Length == FIELD_COUNT
    }

    ghost function View(): Registry
      reads this, state, watches, dirty
    {
      Registry(state.model, watches[..], dirty[..])
    }

    constructor (state: PypilotState)
      ensures Valid() && this.state == state && fresh(watches) && fresh(dirty)
      ensures View() == Registry(state.model, seq(MAX_WATCHES, i => EMPTY_WATCH), AllClean())
    {
      this.state := state;
      watches := new Watch[MAX_WATCHES](i => EMPTY_WATCH);
      dirty := new bool[FIELD_COUNT](i => false);
      new;
      assert watches[..] == seq(MAX_WATCHES, i => EMPTY_WATCH);
      assert dirty[..] == AllClean();
    }

    method MarkDirty(f: Field)
      requires Valid()
      modifies dirty
      ensures dirty[..] == old(dirty[..])[Index(f) := true]
    {
      dirty[Index(f)] := true;
    }

    method SetReal(f: Field, x: real) returns (ok: bool)
      requires Valid()
      modifies state, dirty
      ensures (View(), ok) == SetField(old(View()), f, RealValue(x))
    {
      var m := state.model;
      match f {
      case ServerPort => m := m.(server := m.server.(port := ToPort(x)));
      case ApHeading => m := m.(ap := m.ap.(heading := x));
      case ApHeadingCommand => m := m.(ap := m.ap.(headingCommand := x));
      case ApHeadingError => m := m.(ap := m.ap.(headingError := x));
      case ApCommand => m := m.(ap := m.ap.(command := x));
      case RudderAngle => m := m.(rudder := m.rudder.(angle := x, angleValid := true));
      case RudderOffset => m := m.(rudder := m.rudder.(offset := x));
      case RudderRange => m := m.(rudder := m.rudder.(range := x));
      case ServoCommand => m := m.(servo := m.servo.(command := x));
      case ServoCurrent => m := m.(servo := m.servo.(current := x));
      case ServoVoltage => m := m.(servo := m.servo.(voltage := x));
      case _ => return false;
      }
      state.model := m;
      MarkDirty(f);
      return true;
    }

    method SetBool(f: Field, b: bool) returns (ok: bool)
      requires Valid()
      modifies state, dirty
      ensures (View(), ok) == SetField(old(View()), f, BooleanValue(b))
    {
      var m := state.model;
      match f {
      case ServerRunning => m := m.(server := m.server.(running := b));
      case ApEnabled => m := m.(ap := m.ap.(enabled := b));
      case ServoEngaged => m := m.(servo := m.servo.(engaged := b));
      case ServoFault => m := m.(servo := m.servo.(fault := b));
      case _ => return false;
      }
      state.model := m;
      MarkDirty(f);
      return true;
    }

    method SetString(f: Field, s: string) returns (ok: bool)
      requires Valid()
      modifies state, dirty
      ensures (View(), ok) == SetField(old(View()), f, StringValue(s))
    {
      if f == ApMode {
        state.model := state.model.(ap := state.model.ap.(mode := s));
      } else if f == ApPilot {
        state.model := state.model.(ap := state.model.ap.(pilot := s));
      } else {
        return false;
      }
      MarkDirty(f);
      return true;
    }

    method SetWire(name: string, wire: string, externalWrite: bool) returns (ok: bool)
      requires Valid()
      modifies state, dirty
      ensures (View(), ok) == SetFromWire(old(View()), name, wire, externalWrite)
    {
      var found := Find(name);
      if found == None || (externalWrite && !Writable(found.value)) {
        return false;
      }
      var f := found.value;
      match KindOf(f)
      case RealKind =>
        var x := ParseReal(wire);
        if x == None { return false; }
        ok := SetReal(f, x.value);
      case BooleanKind =>
        var b := ParseBool(wire);
        if b == None { return false; }
        ok := SetBool(f, b.value);
      case StringKind =>
        ok := SetString(f, StripQuotes(wire));
    }

    method WriteValueLine(f: Field, out: StringValueWriter) returns (ok: bool)
      modifies out
      ensures out.text == old(out.text) + LineOf(state.model, f)
      ensures ok <==> Get(state.model, f).Some?
    {
      hide ValueText, Name, Get;
      out.Write(Name(f));
      out.Write("=");
      var v := Get(state.model, f);
      if v == None {
        return false;
      }
      out.WriteValue(v.value);
      out.Write("\n");
      return true;
    }

    method AddWatch(name: string, period: real, now: nat, out: StringValueWriter) returns (ok: bool)
      requires Valid()
      modifies watches, out
      ensures var (r, line, good) := WatchName(old(View()), name, period, now);
              View() == r && out.text == old(out.text) + line && ok == good
    {
      hide LineOf, Find;
      var found := Find(name);
      if found == None {
        return false;
      }
      var f := found.value;
      var _ := WriteValueLine(f, out);
      ghost var before := watches[..];
      for i := 0 to watches.Length
        invariant watches[..] == before
        invariant FindWatch(before, f) == FindWatch(before, f, i)
        invariant out.text == old(out.text) + LineOf(state.model, f)
      {
        if watches[i].active && watches[i].field == f {
          watches[i] := watches[i].(period := period, due := now + PeriodUs(period));
          assert watches[..] == before[i := NewWatch(f, period, now)];
          return true;
        }
      }
      for i := 0 to watches.Length
        invariant watches[..] == before
        invariant FreeWatch(before) == FreeWatch(before, i)
        invariant out.text == old(out.text) + LineOf(state.model, f)
      {
        if !watches[i].active {
          watches[i] := Watch(true, f, period, now + PeriodUs(period));
          assert watches[..] == before[i := NewWatch(f, period, now)];
          return true;
        }
      }
      return false;
    }

    method RemoveWatch(name: string) returns (ok: bool)
      requires Valid()
      modifies watches
      ensures (View(), ok) == UnwatchName(old(View()), name)
    {
      var found := Find(name);
      if found == None {
        return false;
      }
      var f := found.value;
      ghost var goal := Dropped(watches[..], f);
      for i := 0 to watches.Length
        invariant forall k :: 0 <= k < i ==> watches[k] == goal[k]
        invariant forall k :: i <= k < watches.Length ==> watches[k] == old(watches[k])
      {
        if watches[i].active && watches[i].field == f {
          watches[i] := watches[i].(active := false);
        }
      }
      assert watches[..] == goal;
      return true;
    }

    method HasImmediate(f: Field) returns (found: bool)
      requires Valid()
      ensures found == Immediate(watches[..], f)
    {
      for i := 0 to watches.Length
        invariant Immediate(watches[..], f) == Immediate(watches[..], f, i)
      {
        if watches[i].active && watches[i].field == f && watches[i].period == 0.0 {
          return true;
        }
      }
      return false;
    }

    method EmitIfChanged(i: nat, out: StringValueWriter)
      requires Valid() && i < FIELD_COUNT
      modifies dirty, out
      ensures forall k :: 0 <= k < dirty.Length ==> dirty[k] == (k != i && old(dirty[k]))
      ensures out.text == old(out.text) + ChangedLine(old(View()), i)
    {
      if dirty[i] {
        var watched := HasImmediate(FieldAt(i));
        if watched {
          var _ := WriteValueLine(FieldAt(i), out);
        }
        dirty[i] := false;
      }
    }

    method EmitChangedWatches(out: StringValueWriter)
      requires Valid()
      modifies dirty, out
      ensures var (r, text) := EmitChanged(old(View())); View() == r && out.text == old(out.text) + text
    {
      hide ChangedLine, LineOf, Immediate, FieldAt;
      ghost var before := View();
      for i := 0 to dirty.Length
        invariant state.model == before.model && watches[..] == before.watches
        invariant forall k :: 0 <= k < i ==> !dirty[k]
        invariant forall k :: i <= k < dirty.Length ==> dirty[k] == before.dirty[k]
        invariant out.text + ChangedText(before, i) == old(out.text) + ChangedText(before, 0)
      {
        ghost var text := out.text;
        SameChangedLine(before, View(), i);
        EmitIfChanged(i, out);
        Regroup(text, ChangedLine(before, i), ChangedText(before, i + 1));
      }
      assert dirty[..] == AllClean();
    }

    method EmitDueWatches(now: nat, out: StringValueWriter)
      requires Valid()
      modifies watches, out
      ensures var (r, text) := EmitDue(old(View()), now); View() == r && out.text == old(out.text) + text
    {
      hide LineOf;
      ghost var m, before := state.model, watches[..];
      for i := 0 to watches.Length
        invariant forall k :: 0 <= k < i ==> watches[k] == Rescheduled(before[k], now)
        invariant forall k :: i <= k < watches.Length ==> watches[k] == before[k]
        invariant out.text + DueText(m, before, now, i) == old(out.text) + DueText(m, before, now, 0)
      {
        ghost var text := out.text;
        var w := watches[i];
        if w.active && w.period > 0.0 && now >= w.due {
          var _ := WriteValueLine(w.field, out);
          var period := PeriodUs(w.period);
          var due := w.due;
          if period > 0 {
            due := ComputeAdvance(due, period, now);
          }
          watches[i] := w.(due := due);
        }
        ghost var line := if DueNow(before[i], now) then LineOf(m, before[i].field) else "";
        assert out.text == text + line;
        Regroup(text, line, DueText(m, before, now, i + 1));
      }
      assert watches[..] == AllRescheduled(before, now);
    }
  }
}
