/** The replication invariant over every run of the server. */
module Replication {
  import opened DataModel
  import opened Fields
  import opened LineReader
  import opened Mirror
  import opened Receiver
  import opened Search
  import opened Server
  import opened Text
  import opened Values
  import opened Wrappers

  // ---------------------------------------------------------------- who watches for changes

  lemma {:induction false} ImmediateIff(ws: seq<Watch>, f: Field, i: nat)
    requires i <= |ws|
    ensures Immediate(ws, f, i) <==> exists k :: i <= k < |ws| && ws[k].active && ws[k].field == f && ws[k].period == 0.0
    decreases |ws| - i
  {
    if i < |ws| {
      ImmediateIff(ws, f, i + 1);
    }
  }

  lemma UpdatedImmediate(ws: seq<Watch>, i: nat, w: Watch, g: Field)
    requires i < |ws| && w.field != g
    ensures Immediate(ws[i := w], g) ==> Immediate(ws, g)
  {
    hide Immediate;
    ImmediateIff(ws, g, 0);
    ImmediateIff(ws[i := w], g, 0);
  }

  lemma WatchImmediate(r: Registry, f: Field, period: real, now: nat, g: Field)
    requires g != f
    ensures Immediate(WatchField(r, f, period, now).0.watches, g) ==> Immediate(r.watches, g)
  {
    hide Immediate, SlotFor;
    if SlotFor(r.watches, f) < |r.watches| {
      UpdatedImmediate(r.watches, SlotFor(r.watches, f), NewWatch(f, period, now), g);
    }
  }

  lemma DroppedImmediate(ws: seq<Watch>, f: Field, g: Field)
    ensures Immediate(Dropped(ws, f), g) ==> Immediate(ws, g)
  {
    hide Immediate;
    ImmediateIff(ws, g, 0);
    ImmediateIff(Dropped(ws, f), g, 0);
    var ws' := Dropped(ws, f);
    if k :| 0 <= k < |ws'| && ws'[k].active && ws'[k].field == g && ws'[k].period == 0.0 {
      assert ws[k] == ws'[k];
    }
  }

  lemma RescheduledImmediate(ws: seq<Watch>, now: nat, g: Field)
    ensures Immediate(AllRescheduled(ws, now), g) ==> Immediate(ws, g)
  {
    hide Immediate;
    var ws' := AllRescheduled(ws, now);
    ImmediateIff(ws, g, 0);
    ImmediateIff(ws', g, 0);
    if k :| 0 <= k < |ws'| && ws'[k].active && ws'[k].field == g && ws'[k].period == 0.0 {
      assert ws[k].active && ws[k].field == g && ws[k].period == 0.0;
    }
  }

  // ---------------------------------------------------------------- what a step writes

  /** The values in the notes are of fields in `fs`. */
  predicate NotesWithin(notes: seq<Note>, fs: set<Field>) {
    forall n :: n in notes && n.ValueNote? ==> n.field in fs
  }

  function FieldSet(f: Option<Field>): set<Field> {
    if f.Some? then {f.value} else {}
  }

  /** The fields that a watch request names. */
  function NamedIn(expression: string): set<Field>
    decreases |expression|
  {
    match Next(expression)
    case Entry(key, value, rest) => FieldSet(Find(key)) + NamedIn(rest)
    case _ => {}
  }

  /** The fields that a request line asks the server to write: those named in a watch request. */
  function AskedIn(line: string): set<Field> {
    var l := Trim(line);
    var eq := IndexOf(l, '=');
    if |l| == 0 || eq == |l| || Trim(l[..eq]) != "watch" then {}
    else
      var e := Trim(Trim(l[eq + 1..]));
      if Braced(e) then NamedIn(e[1..|e| - 1]) else {}
  }

  /** What one entry of a watch request writes. */
  function EntryNotes(r: Registry, key: string, value: string, now: nat): seq<Note> {
    if key == "values" then (if value == "false" then [] else [MetadataNote])
    else if value == "false" then []
    else match ParsePeriod(value)
      case None => [ErrorNote(INVALID_PERIOD)]
      case Some(period) => WatchNotes(r, key, period, now)
  }

  function WatchNotes(r: Registry, key: string, period: real, now: nat): seq<Note> {
    match Find(key)
    case None => [ErrorNote(UNKNOWN_VALUE)]
    case Some(f) => if WatchField(r, f, period, now).1 then [ValueNote(f)] else [ValueNote(f), ErrorNote(UNKNOWN_VALUE)]
  }

  function RequestNotes(r: Registry, expression: string, now: nat): seq<Note>
    decreases |expression|
  {
    match Next(expression)
    case End => []
    case BadKey => [ErrorNote(INVALID_KEY)]
    case BadSeparator => [ErrorNote(INVALID_SEPARATOR)]
    case Entry(key, value, rest) =>
      var (reply, stop) := Perform(r, key, value, now);
      EntryNotes(r, key, value, now) + if stop then [] else RequestNotes(reply.reg, rest, now)
  }

  function AssignmentNotes(r: Registry, name: string, value: string): seq<Note>
    requires |r.dirty| == FIELD_COUNT
  {
    if SetFromWire(r, name, value, true).1 then [] else [ErrorNote(INVALID_SET)]
  }

  /** What a request line writes. */
  function LineNotes(r: Registry, line: string, now: nat): seq<Note>
    requires |r.dirty| == FIELD_COUNT
  {
    var l := Trim(line);
    var eq := IndexOf(l, '=');
    if |l| == 0 then []
    else if eq == |l| then [ErrorNote(MISSING_EQUALS)]
    else
      var name, value := Trim(l[..eq]), Trim(l[eq + 1..]);
      if name == "watch" then
        var e := Trim(value);
        if Braced(e) then RequestNotes(r, e[1..|e| - 1], now) else [ErrorNote(INVALID_WATCH)]
      else if name == "values" then [ErrorNote(NO_REGISTRATION)]
      else if name == "udp_port" then []
      else AssignmentNotes(r, name, value)
  }

  /** Every field watched for changes is dirty, or noted, or was so watched, clean and unchanged
      before. */
  ghost predicate Covered(r: Registry, r': Registry, notes: seq<Note>)
    requires |r.dirty| == |r'.dirty| == FIELD_COUNT
  {
    forall f :: Immediate(r'.watches, f) ==>
      || r'.dirty[Index(f)]
      || ValueNote(f) in notes
      || (Immediate(r.watches, f) && !r.dirty[Index(f)] && Get(r'.model, f) == Get(r.model, f))
  }

  /** A step from `r` to `r'` that writes `out`: the notes tell what is in it. */
  ghost predicate Explains(r: Registry, r': Registry, out: string, notes: seq<Note>) {
    && |r.dirty| == |r'.dirty| == FIELD_COUNT
    && out == NotesText(r'.model, notes)
    && Covered(r, r', notes)
    && forall n :: n in notes && n.ErrorNote? ==> TidyNote(r'.model, n)
  }

  /** Steps that touch neither the state nor the dirty bits compose. */
  lemma ExplainsTrans(r: Registry, r1: Registry, out1: string, notes1: seq<Note>, r2: Registry, out2: string, notes2: seq<Note>)
    requires Explains(r, r1, out1, notes1) && Explains(r1, r2, out2, notes2)
    requires r1.model == r.model && r2.model == r.model && r1.dirty == r.dirty && r2.dirty == r.dirty
    ensures Explains(r, r2, out1 + out2, notes1 + notes2)
  {
    hide Immediate, Get, NotesText;
    NotesTextConcat(r.model, notes1, notes2);
  }

  lemma ExplainsNothing(r: Registry)
    requires |r.dirty| == FIELD_COUNT
    ensures Explains(r, r, "", [])
  {}

  /** The server's messages are short, printable text. */
  predicate ShortMessage(message: string) {
    |message| <= 100 && forall i :: 0 <= i < |message| ==> ' ' <= message[i] <= '~'
  }

  lemma EntryMessages()
    ensures ShortMessage(INVALID_PERIOD) && ShortMessage(UNKNOWN_VALUE)
  {}

  lemma ScanMessages()
    ensures ShortMessage(INVALID_KEY) && ShortMessage(INVALID_SEPARATOR)
  {}

  lemma RequestMessages()
    ensures ShortMessage(INVALID_WATCH) && ShortMessage(INVALID_SET)
  {}

  lemma LineMessages()
    ensures ShortMessage(MISSING_EQUALS) && ShortMessage(NO_REGISTRATION)
  {}

  lemma ExplainsError(r: Registry, message: string)
    requires |r.dirty| == FIELD_COUNT && ShortMessage(message)
    ensures Explains(r, r, ErrorLine(message), [ErrorNote(message)])
  {}

  lemma ExplainsMetadata(r: Registry)
    requires |r.dirty| == FIELD_COUNT
    ensures Explains(r, r, ValuesLine(), [MetadataNote])
  {
    hide Get, Immediate, NotesText, ValuesLine;
    NotesTextOne(r.model, MetadataNote);
  }

  lemma ExplainsWatch(r: Registry, f: Field, period: real, now: nat)
    requires |r.dirty| == FIELD_COUNT
    ensures Explains(r, WatchField(r, f, period, now).0, LineOf(r.model, f), [ValueNote(f)])
  {
    hide Get, Immediate, NotesText, LineOf;
    NotesTextOne(r.model, ValueNote(f));
    forall g | g != f ensures Immediate(WatchField(r, f, period, now).0.watches, g) ==> Immediate(r.watches, g) {
      WatchImmediate(r, f, period, now, g);
    }
  }

  lemma ExplainsUnwatch(r: Registry, f: Field)
    requires |r.dirty| == FIELD_COUNT
    ensures Explains(r, r.(watches := Dropped(r.watches, f)), "", [])
  {
    hide Get, Immediate;
    forall g ensures Immediate(Dropped(r.watches, f), g) ==> Immediate(r.watches, g) {
      DroppedImmediate(r.watches, f, g);
    }
  }

  /** One entry of a watch request. */
  lemma PerformExplained(r: Registry, key: string, value: string, now: nat)
    requires |r.dirty| == FIELD_COUNT
    ensures var reply, notes := Perform(r, key, value, now).0, EntryNotes(r, key, value, now);
            && reply.reg.model == r.model && reply.reg.dirty == r.dirty && Explains(r, reply.reg, reply.out, notes)
            && NotesWithin(notes, FieldSet(Find(key)))
  {
    hide Explains, LineOf, ErrorLine, ValuesLine, ParsePeriod, Find, ShortMessage, WatchNotes, WatchName;
    EntryMessages();
    ExplainsNothing(r);
    if key == "values" {
      ExplainsMetadata(r);
    } else if value == "false" {
      if Find(key).Some? {
        ExplainsUnwatch(r, Find(key).value);
      }
    } else if ParsePeriod(value) == None {
      ExplainsError(r, INVALID_PERIOD);
    } else {
      WatchExplained(r, key, ParsePeriod(value).value, now);
    }
  }

  lemma WatchExplained(r: Registry, key: string, period: real, now: nat)
    requires |r.dirty| == FIELD_COUNT
    ensures var (r', line, ok) := WatchName(r, key, period, now);
            var out := if ok then line else line + ErrorLine(UNKNOWN_VALUE);
            var notes := WatchNotes(r, key, period, now);
            && r'.model == r.model && r'.dirty == r.dirty && Explains(r, r', out, notes)
            && NotesWithin(notes, FieldSet(Find(key)))
  {
    hide Explains, LineOf, ErrorLine, ShortMessage;
    EntryMessages();
    match Find(key)
    case None =>
      ExplainsError(r, UNKNOWN_VALUE);
      assert "" + ErrorLine(UNKNOWN_VALUE) == ErrorLine(UNKNOWN_VALUE);
    case Some(f) =>
      var (r', ok) := WatchField(r, f, period, now);
      ExplainsWatch(r, f, period, now);
      if !ok {
        ExplainsError(r', UNKNOWN_VALUE);
        ExplainsTrans(r, r', LineOf(r.model, f), [ValueNote(f)], r', ErrorLine(UNKNOWN_VALUE), [ErrorNote(UNKNOWN_VALUE)]);
        assert [ValueNote(f)] + [ErrorNote(UNKNOWN_VALUE)] == [ValueNote(f), ErrorNote(UNKNOWN_VALUE)];
      }
  }

  lemma {:induction false} PerformAllExplained(r: Registry, expression: string, now: nat)
    requires |r.dirty| == FIELD_COUNT
    ensures var reply, notes := PerformAll(r, expression, now), RequestNotes(r, expression, now);
            && reply.reg.model == r.model && reply.reg.dirty == r.dirty && Explains(r, reply.reg, reply.out, notes)
            && NotesWithin(notes, NamedIn(expression))
    decreases |expression|
  {
    hide Explains, Perform, EntryNotes, Next, ErrorLine, ShortMessage;
    ScanMessages();
    match Next(expression) {
      case End => ExplainsNothing(r);
      case BadKey => ExplainsError(r, INVALID_KEY);
      case BadSeparator => ExplainsError(r, INVALID_SEPARATOR);
      case Entry(key, value, rest) =>
        var (reply, stop) := Perform(r, key, value, now);
        var notes := EntryNotes(r, key, value, now);
        PerformExplained(r, key, value, now);
        if stop {
          assert notes + [] == notes;
        } else {
          PerformAllExplained(reply.reg, rest, now);
          var end := PerformAll(reply.reg, rest, now);
          ExplainsTrans(r, reply.reg, reply.out, notes, end.reg, end.out, RequestNotes(reply.reg, rest, now));
        }
    }
  }

  lemma SetExplained(r: Registry, f: Field, v: Value)
    requires |r.dirty| == FIELD_COUNT
    ensures Explains(r, SetField(r, f, v).0, "", [])
  {
    hide Get, Put, Immediate;
    var r' := SetField(r, f, v).0;
    forall g | g != f ensures Get(r'.model, g) == Get(r.model, g) && r'.dirty[Index(g)] == r.dirty[Index(g)] {
      PutGet(r.model, f, v, g);
      assert FieldAt(Index(g)) == g && FieldAt(Index(f)) == f;
    }
  }

  lemma AssignmentExplained(r: Registry, name: string, value: string)
    requires |r.dirty| == FIELD_COUNT
    ensures var reply, notes := HandleAssignment(r, name, value), AssignmentNotes(r, name, value);
            Explains(r, reply.reg, reply.out, notes) && NotesWithin(notes, {})
  {
    hide Explains, SetField, ErrorLine, ParseValue, Find, ShortMessage;
    RequestMessages();
    var (r', ok) := SetFromWire(r, name, value, true);
    if ok {
      SetExplained(r, Find(name).value, ParseValue(value, KindOf(Find(name).value)).value);
    } else {
      FailedSet(r, name, value);
      ExplainsError(r, INVALID_SET);
    }
  }

  lemma FailedSet(r: Registry, name: string, value: string)
    requires |r.dirty| == FIELD_COUNT && !SetFromWire(r, name, value, true).1
    ensures SetFromWire(r, name, value, true).0 == r
  {}

  /** Every request line is explained. */
  lemma HandleLineExplained(r: Registry, line: string, now: nat)
    requires |r.dirty| == FIELD_COUNT
    ensures var reply, notes := HandleLine(r, line, now), LineNotes(r, line, now);
            Explains(r, reply.reg, reply.out, notes) && NotesWithin(notes, AskedIn(line))
  {
    hide Explains, PerformAll, RequestNotes, NamedIn, HandleAssignment, AssignmentNotes, ErrorLine, Trim, ShortMessage;
    LineMessages();
    RequestMessages();
    var l := Trim(line);
    var eq := IndexOf(l, '=');
    ExplainsNothing(r);
    if |l| > 0 && eq == |l| {
      ExplainsError(r, MISSING_EQUALS);
    } else if |l| > 0 {
      var name, value := Trim(l[..eq]), Trim(l[eq + 1..]);
      var e := Trim(value);
      if name == "watch" && Braced(e) {
        PerformAllExplained(r, e[1..|e| - 1], now);
      } else if name == "watch" {
        ExplainsError(r, INVALID_WATCH);
      } else if name == "values" {
        ExplainsError(r, NO_REGISTRATION);
      } else if name != "udp_port" {
        AssignmentExplained(r, name, value);
      }
    }
  }
}
