/** Replication: after a poll, every field that a subscriber watches for all changes has the
    server's value in the subscriber's copy.

    What the server writes in one step is a list of notes.  The line reader turns their text
    back into lines, and delivering those lines copies the noted fields and nothing else. */
module Mirror {
  import opened DataModel
  import opened Decimal
  import opened Division
  import opened Fields
  import opened LineReader
  import opened Receiver
  import opened Requests
  import opened Search
  import opened Server
  import opened Text
  import opened Values
  import opened Wrappers

  datatype Note = ValueNote(field: Field) | ErrorNote(message: string) | MetadataNote

  function NoteText(m: Model, n: Note): string {
    match n
    case ValueNote(f) => LineOf(m, f)
    case ErrorNote(message) => ErrorLine(message)
    case MetadataNote => ValuesLine()
  }

  function NotesText(m: Model, notes: seq<Note>): string {
    if |notes| == 0 then "" else NoteText(m, notes[0]) + NotesText(m, notes[1..])
  }

  lemma {:induction false} NotesTextConcat(m: Model, a: seq<Note>, b: seq<Note>)
    ensures NotesText(m, a + b) == NotesText(m, a) + NotesText(m, b)
    decreases |a|
  {
    hide NoteText;
    if |a| == 0 {
      assert a + b == b;
    } else {
      assert (a + b)[1..] == a[1..] + b;
      NotesTextConcat(m, a[1..], b);
    }
  }

  lemma NotesTextOne(m: Model, n: Note)
    ensures NotesText(m, [n]) == NoteText(m, n)
  {}

  // ---------------------------------------------------------------- notes on the wire

  const CLIENT_CAPACITY := 192
  const CLIENT_OPTIONS := Options('\n', true, true)

  /** A field's line that survives the trip: readable, in one piece, and short enough. */
  predicate Tidy(m: Model, f: Field) {
    match Get(m, f)
    case None => false
    case Some(v) => Legible(v) && '\n' !in ValueText(v) && |ValueLine(f, v)| <= CLIENT_CAPACITY
  }

  predicate TidyNote(m: Model, n: Note) {
    match n
    case ValueNote(f) => Tidy(m, f)
    case ErrorNote(message) =>
      |message| <= 100 && '\n' !in message && (|message| > 0 ==> message[|message| - 1] != '\r')
    case MetadataNote => true
  }

  /** The value of a field that cannot be read: its line has no value and no end. */
  predicate Opens(m: Model, n: Note) {
    n.ValueNote? && Get(m, n.field) == None
  }

  /** What such a note writes. */
  const OPENING := "rudder.angle="

  lemma OpeningText(m: Model, n: Note)
    requires Opens(m, n)
    ensures NoteText(m, n) == OPENING
  {
    assert n.field == RudderAngle;
  }

  /** So many open lines in a row. */
  function OpenText(k: nat): (t: string)
    ensures |t| == 13 * k
  {
    if k == 0 then "" else OPENING + OpenText(k - 1)
  }

  lemma {:induction false} OpenTextMore(k: nat)
    ensures OpenText(k) + OPENING == OpenText(k + 1)
    decreases k
  {
    if k == 0 {
      assert "" + OPENING == OPENING + "";
    } else {
      OpenTextMore(k - 1);
      assert OPENING + OpenText(k - 1) + OPENING == OPENING + (OpenText(k - 1) + OPENING);
    }
  }

  /** How many openings fit the reader's buffer. */
  const MAX_OPEN := 14

  /** How many openings precede the next note, if `k` precede this one. */
  function Carry(m: Model, k: nat, n: Note): nat {
    if Opens(m, n) then k + 1 else 0
  }

  function CarryAll(m: Model, k: nat, notes: seq<Note>): nat
    decreases |notes|
  {
    if |notes| == 0 then k else CarryAll(m, Carry(m, k, notes[0]), notes[1..])
  }

  /** Behind `k` openings the note is an opening itself, or tidy, and what is one line for the
      reader fits its buffer; only the metadata line never does. */
  predicate Passes(m: Model, k: nat, n: Note) {
    if Opens(m, n) then k < MAX_OPEN
    else TidyNote(m, n) && k <= MAX_OPEN && (n.MetadataNote? || |OpenText(k)| + |NoteLine(m, n)| <= CLIENT_CAPACITY)
  }

  predicate PassesAll(m: Model, k: nat, notes: seq<Note>)
    decreases |notes|
  {
    |notes| > 0 ==> Passes(m, k, notes[0]) && PassesAll(m, Carry(m, k, notes[0]), notes[1..])
  }

  function MetadataTail(k: nat): string {
    var line := OpenText(k) + "values={" + EntriesJson(0) + "}";
    StripCr(Kept(line, CLIENT_OPTIONS, CLIENT_CAPACITY), CLIENT_OPTIONS)
  }

  /** The line of a readable note. */
  function NoteLine(m: Model, n: Note): string {
    match n
    case ValueNote(f) => (match Get(m, f) case Some(v) => ValueLine(f, v) case None => "")
    case ErrorNote(message) => "error=" + message
    case MetadataNote => "values={" + EntriesJson(0) + "}"
  }

  /** The line that the reader hands on for a note behind `k` openings. */
  function ReceivedLine(m: Model, k: nat, n: Note): string {
    if n.MetadataNote? then MetadataTail(k) else OpenText(k) + NoteLine(m, n)
  }

  function ReceivedLines(m: Model, k: nat, notes: seq<Note>): seq<string>
    decreases |notes|
  {
    if |notes| == 0 then []
    else (if Opens(m, notes[0]) then [] else [ReceivedLine(m, k, notes[0])]) + ReceivedLines(m, Carry(m, k, notes[0]), notes[1..])
  }

  /** Text of the metadata: on one line and without equals signs. */
  predicate Smooth(s: string) {
    '=' !in s && '\n' !in s
  }

  lemma SmoothConcat(a: string, b: string)
    requires Smooth(a) && Smooth(b)
    ensures Smooth(a + b)
  {}

  function EntryText(i: nat): string
    requires i < FIELD_COUNT
  {
    (if i > 0 then "," else "") + "\"" + Name(FieldAt(i)) + "\":" + InfoJson(FieldAt(i))
  }

  lemma EntryChars(i: nat)
    requires i < FIELD_COUNT
    ensures Smooth(EntryText(i)) && |EntryText(i)| >= 20
  {
    hide Name, FieldAt, InfoJson;
    NameChars(FieldAt(i));
    InfoChars(FieldAt(i));
  }

  lemma {:induction false} MetadataChars(i: nat)
    requires i <= FIELD_COUNT
    ensures Smooth(EntriesJson(i)) && |EntriesJson(i)| >= 20 * (FIELD_COUNT - i)
    decreases FIELD_COUNT - i
  {
    hide Smooth, Name, FieldAt, InfoJson;
    if i < FIELD_COUNT {
      MetadataChars(i + 1);
      EntryChars(i);
      SmoothConcat(EntryText(i), EntriesJson(i + 1));
      assert EntriesJson(i) == EntryText(i) + EntriesJson(i + 1);
    } else {
      SmoothNothing();
    }
  }

  lemma SmoothNothing()
    ensures Smooth("")
  {}

  lemma InfoChars(f: Field)
    ensures '=' !in InfoJson(f) && '\n' !in InfoJson(f) && |InfoJson(f)| >= 13
  {
    var t := TypeName(f);
    TypeLetters(f);
    assert InfoJson(f) == "{\"type\":\"" + t + "\"" + (if Writable(f) then ",\"writable\":true" else "") + "}";
  }

  lemma TypeLetters(f: Field)
    ensures 5 <= |TypeName(f)| && forall i :: 0 <= i < |TypeName(f)| ==> 'A' <= TypeName(f)[i] <= 'z'
  {}

  /** The metadata line is longer than the reader's buffer, so that only its end is handed on,
      without an equals sign: the client makes nothing of it. */
  lemma MetadataTailHarmless(k: nat)
    requires k <= MAX_OPEN
    ensures '=' !in MetadataTail(k)
  {
    hide EntriesJson, OpenText;
    MetadataChars(0);
    var json, open := EntriesJson(0), OpenText(k) + "values={";
    var line := open + json + "}";
    assert |open| <= CLIENT_CAPACITY + 1;
    var from := |line| - |line| % (CLIENT_CAPACITY + 1);
    LongerThan(|line|, CLIENT_CAPACITY + 1);
    assert forall i :: |open| <= i < |line| - 1 ==> line[i] == json[i - |open|];
    assert forall i :: from <= i < |line| ==> line[i] != '=';
    assert line == OpenText(k) + "values={" + json + "}";
    assert Kept(line, CLIENT_OPTIONS, CLIENT_CAPACITY) == line[from..];
  }

  lemma LongerThan(n: nat, d: nat)
    requires n >= d > 0
    ensures n - n % d >= d
  {
    var q := (n - d) / d;
    assert d * (q + 1) == d * q + d;
    QuotientUnique(n, d, q + 1, (n - d) % d);
  }

  /** The text of a readable note is its line and a line end. */
  lemma NoteWithoutEnd(m: Model, n: Note)
    requires TidyNote(m, n)
    ensures NoteText(m, n) == NoteLine(m, n) + "\n" && '\n' !in NoteLine(m, n)
    ensures !n.MetadataNote? ==> !(|NoteLine(m, n)| > 0 && NoteLine(m, n)[|NoteLine(m, n)| - 1] == '\r')
    ensures |NoteLine(m, n)| > 0 && 'a' <= NoteLine(m, n)[0] <= 'z'
  {
    hide EntriesJson, ValueText, Name;
    match n
    case ValueNote(f) =>
      NameChars(f);
      NameStart(f);
      ValueTextTrimmed(Get(m, f).value);
    case ErrorNote(message) =>
    case MetadataNote => MetadataChars(0);
  }

  lemma NameStart(f: Field)
    ensures |Name(f)| > 0 && 'a' <= Name(f)[0] <= 'z'
  {}

  lemma {:induction false} OpenTextChars(k: nat)
    ensures '\n' !in OpenText(k) && (k > 0 ==> OpenText(k)[0] == 'r')
    decreases k
  {
    if k > 0 {
      OpenTextChars(k - 1);
    }
  }

  /** The reader keeps openings and turns any other note into one line. */
  lemma ReadNote(s: State, m: Model, k: nat, n: Note)
    requires s.buffer == OpenText(k) && Passes(m, k, n)
    ensures var t := Feed(s, NoteText(m, n), CLIENT_OPTIONS, CLIENT_CAPACITY);
            && t.buffer == OpenText(Carry(m, k, n))
            && t.lines == s.lines + if Opens(m, n) then [] else [ReceivedLine(m, k, n)]
  {
    hide Feed, EntriesJson, ValueText, Kept, Lost, StripCr, OpenText, NoteText, NoteLine, TidyNote, Get;
    OpenTextChars(k);
    KeptShort(OpenText(k));
    if Opens(m, n) {
      OpeningText(m, n);
      MoreOfLine(s, OpenText(k), OPENING, CLIENT_OPTIONS, CLIENT_CAPACITY);
      OpenTextMore(k);
      KeptShort(OpenText(k + 1));
      assert s.lines + [] == s.lines;
    } else {
      NoteWithoutEnd(m, n);
      RestOfLine(s, OpenText(k), NoteLine(m, n), CLIENT_OPTIONS, CLIENT_CAPACITY);
      LineReceived(m, k, n);
    }
  }

  lemma KeptShort(line: string)
    requires |line| <= CLIENT_CAPACITY
    ensures Kept(line, CLIENT_OPTIONS, CLIENT_CAPACITY) == line
  {
    QuotientUnique(|line|, CLIENT_CAPACITY + 1, 0, |line|);
  }

  lemma LineReceived(m: Model, k: nat, n: Note)
    requires Passes(m, k, n) && !Opens(m, n)
    ensures StripCr(Kept(OpenText(k) + NoteLine(m, n), CLIENT_OPTIONS, CLIENT_CAPACITY), CLIENT_OPTIONS) == ReceivedLine(m, k, n)
  {
    hide EntriesJson, ValueText, Kept, OpenText, TidyNote, Get;
    NoteWithoutEnd(m, n);
    if n.MetadataNote? {
      assert OpenText(k) + NoteLine(m, n) == OpenText(k) + "values={" + EntriesJson(0) + "}";
    } else {
      KeptShort(OpenText(k) + NoteLine(m, n));
    }
  }

  lemma {:induction false} ReadNotes(s: State, m: Model, k: nat, notes: seq<Note>)
    requires s.buffer == OpenText(k) && PassesAll(m, k, notes)
    ensures var t := Feed(s, NotesText(m, notes), CLIENT_OPTIONS, CLIENT_CAPACITY);
            t.buffer == OpenText(CarryAll(m, k, notes)) && t.lines == s.lines + ReceivedLines(m, k, notes)
    decreases |notes|
  {
    hide Feed, NoteText, ReceivedLine, Passes, Carry, OpenText, Opens;
    if |notes| == 0 {
      FeedNothing(s);
      assert s.lines + [] == s.lines;
    } else {
      var first, k' := NoteText(m, notes[0]), Carry(m, k, notes[0]);
      var t := Feed(s, first, CLIENT_OPTIONS, CLIENT_CAPACITY);
      ReadNote(s, m, k, notes[0]);
      ReadNotes(t, m, k', notes[1..]);
      FeedConcat(s, first, NotesText(m, notes[1..]), CLIENT_OPTIONS, CLIENT_CAPACITY);
      var line := if Opens(m, notes[0]) then [] else [ReceivedLine(m, k, notes[0])];
      assert s.lines + line + ReceivedLines(m, k', notes[1..]) == s.lines + (line + ReceivedLines(m, k', notes[1..]));
    }
  }

  lemma FeedNothing(s: State)
    ensures Feed(s, "", CLIENT_OPTIONS, CLIENT_CAPACITY) == s
  {}

  // ---------------------------------------------------------------- delivering notes

  /** What the copy of a field should be. */
  function CopyOf(m: Model, f: Field): Option<Value> {
    match Get(m, f)
    case Some(v) => Some(Mirrored(v))
    case None => None
  }

  lemma WholeUnits(n: nat)
    ensures Rounded(n as real, 4) == n as real
  {
    assert Pow10(4) == 10000;
    var y := n as real * 10000.0;
    assert y == (n * 10000) as real && y.Floor == n * 10000;
  }

  /** Storing a mirrored value in the same field does not change it: the port is printed as a
      whole number. */
  lemma MirrorStored(m: Model, f: Field)
    requires Get(m, f).Some?
    ensures HasKind(Get(m, f).value, KindOf(f)) && HasKind(Mirrored(Get(m, f).value), KindOf(f))
    ensures Stored(f, Mirrored(Get(m, f).value)) == Mirrored(Get(m, f).value)
  {
    GetKind(m, f);
    if f == ServerPort {
      WholeUnits(m.server.port);
    }
  }

  lemma DeliverValue(c: Registry, m: Model, f: Field, g: Field)
    requires |c.dirty| == FIELD_COUNT && Tidy(m, f)
    ensures Get(Deliver(c, NoteLine(m, ValueNote(f))).model, g) == if g == f then CopyOf(m, f) else Get(c.model, g)
  {
    hide Name, ValueText, ParseValue, Get, Put, Stored, Mirrored;
    var v := Get(m, f).value;
    NameChars(f);
    NotSpecialName(f);
    ValueTextTrimmed(v);
    RecordOfLine(Name(f), ValueText(v));
    FindName(f);
    MirrorStored(m, f);
    ParsedBack(v, KindOf(f));
    PutGet(c.model, f, Mirrored(v), g);
  }

  lemma DeliverError(c: Registry, message: string)
    requires |c.dirty| == FIELD_COUNT
    ensures Deliver(c, "error=" + message) == c
  {
    var line := "error=" + message;
    assert line == "error" + "=" + message;
    TrimPivot("error", '=', message);
    TrimLeftNothing("error");
    IndexOfSplit("error", '=', TrimRight(message));
    var l := Trim(line);
    assert l[..5] == "error";
    TrimNothing("error");
    NoSuchField("error");
  }

  lemma NoSuchField(name: string)
    requires '.' !in name
    ensures Find(name) == None
  {
    hide Name;
    if Find(name).Some? {
      NameChars(Find(name).value);
    }
  }

  lemma DeliverNoise(c: Registry, line: string)
    requires |c.dirty| == FIELD_COUNT && '=' !in line
    ensures Deliver(c, line) == c
  {
    var left, right := TrimSplit(line);
    var l := Trim(line);
    assert forall i :: 0 <= i < |l| ==> l[i] == line[|left| + i];
    IndexOfNone(l, '=');
  }

  /** A line that starts with an opening carries no number for the rudder angle: it changes
      nothing. */
  lemma DeliverOpen(c: Registry, rest: string)
    requires |c.dirty| == FIELD_COUNT && |rest| > 0 && 'a' <= rest[0] <= 'z'
    ensures Deliver(c, OPENING + rest) == c
  {
    hide Name, Find, ParseReal, TrimRight;
    var name := "rudder.angle";
    var line := OPENING + rest;
    assert line == name + "=" + rest;
    TrimPivot(name, '=', rest);
    TrimLeftNothing(name);
    IndexOfSplit(name, '=', TrimRight(rest));
    var l := Trim(line);
    assert l[..|name|] == name && l[|name| + 1..] == TrimRight(rest);
    TrimNothing(name);
    RudderName();
    FindName(RudderAngle);
    NotSpecialName(RudderAngle);
    TrimmedStart(rest);
    NotANumber(Trim(TrimRight(rest)));
  }

  lemma RudderName()
    ensures Name(RudderAngle) == "rudder.angle"
  {}

  lemma TrimmedStart(rest: string)
    requires |rest| > 0 && 'a' <= rest[0] <= 'z'
    ensures var t := Trim(TrimRight(rest)); |t| > 0 && t[0] == rest[0]
  {
    TrimOfTrimRight(rest);
    TrimLeftNothing(rest);
    var blanks := TrimRightSplit(rest);
    assert rest[0] == (TrimRight(rest) + blanks)[0];
  }

  lemma NotANumber(s: string)
    requires |s| > 0 && 'a' <= s[0] <= 'z'
    ensures ParseReal(s) == None
  {
    var t := if |s| <= 31 then s else s[..31];
    assert t[0] == s[0];
    SkipNothing(t);
    assert Run(t) == "" && t[0..] == t;
  }

  /** A line behind openings, or the end of a metadata line, changes nothing; any other line
      copies the field that it is about. */
  lemma DeliverNote(c: Registry, m: Model, k: nat, n: Note, g: Field)
    requires |c.dirty| == FIELD_COUNT && Passes(m, k, n) && !Opens(m, n)
    ensures Get(Deliver(c, ReceivedLine(m, k, n)).model, g) == if k == 0 && n == ValueNote(g) then CopyOf(m, g) else Get(c.model, g)
  {
    hide Get, CopyOf, Deliver, NoteLine, MetadataTail, EntriesJson, OpenText, TidyNote;
    if n.MetadataNote? {
      MetadataTailHarmless(k);
      DeliverNoise(c, MetadataTail(k));
    } else if k > 0 {
      NoteWithoutEnd(m, n);
      BehindOpening(k, NoteLine(m, n));
      DeliverOpen(c, OpenText(k - 1) + NoteLine(m, n));
    } else {
      assert OpenText(0) + NoteLine(m, n) == NoteLine(m, n);
      DeliverTidy(c, m, n, g);
    }
  }

  lemma BehindOpening(k: nat, line: string)
    requires k > 0 && |line| > 0 && 'a' <= line[0] <= 'z'
    ensures OpenText(k) + line == OPENING + (OpenText(k - 1) + line)
    ensures var rest := OpenText(k - 1) + line; 'a' <= rest[0] <= 'z'
  {
    OpenTextChars(k - 1);
    assert OPENING + OpenText(k - 1) + line == OPENING + (OpenText(k - 1) + line);
  }

  lemma DeliverTidy(c: Registry, m: Model, n: Note, g: Field)
    requires |c.dirty| == FIELD_COUNT && TidyNote(m, n) && !n.MetadataNote?
    ensures Get(Deliver(c, NoteLine(m, n)).model, g) == if n == ValueNote(g) then CopyOf(m, g) else Get(c.model, g)
  {
    hide Get, CopyOf, Deliver;
    match n
    case ValueNote(f) => DeliverValue(c, m, f, g);
    case ErrorNote(message) => DeliverError(c, message);
  }

  // ---------------------------------------------------------------- which fields are copied

  /** The fields whose values get through, behind `k` openings. */
  function Landed(m: Model, k: nat, notes: seq<Note>): set<Field>
    decreases |notes|
  {
    if |notes| == 0 then {}
    else
      var n := notes[0];
      (if k == 0 && n.ValueNote? && !Opens(m, n) then {n.field} else {}) + Landed(m, Carry(m, k, n), notes[1..])
  }

  /** A note gets a value through: it can be read and does not directly follow an opening. */
  predicate LandsAt(m: Model, k: nat, notes: seq<Note>, g: Field, i: nat)
    requires i < |notes|
  {
    notes[i] == ValueNote(g) && Get(m, g).Some? && if i == 0 then k == 0 else !Opens(m, notes[i - 1])
  }

  lemma {:induction false} LandedIff(m: Model, k: nat, notes: seq<Note>, g: Field)
    ensures g in Landed(m, k, notes) <==> exists i :: 0 <= i < |notes| && LandsAt(m, k, notes, g, i)
    decreases |notes|
  {
    hide Get, Landed;
    LandedFirst(m, k, notes, g);
    if |notes| > 0 {
      var rest, k' := notes[1..], Carry(m, k, notes[0]);
      LandedIff(m, k', rest, g);
      if i :| 0 <= i < |notes| && LandsAt(m, k, notes, g, i) {
        assert i > 0 ==> LandsAt(m, k', rest, g, i - 1);
      }
      if j :| 0 <= j < |rest| && LandsAt(m, k', rest, g, j) {
        assert LandsAt(m, k, notes, g, j + 1);
      } else if k == 0 && notes[0] == ValueNote(g) && !Opens(m, notes[0]) {
        assert LandsAt(m, k, notes, g, 0);
      }
    }
  }

  lemma LandedFirst(m: Model, k: nat, notes: seq<Note>, g: Field)
    ensures g in Landed(m, k, notes) <==>
            |notes| > 0 && ((k == 0 && notes[0] == ValueNote(g) && !Opens(m, notes[0])) || g in Landed(m, Carry(m, k, notes[0]), notes[1..]))
  {
    hide Get;
  }

  /** Delivering what arrives of a step copies the fields whose values get through, and changes
      nothing else. */
  lemma {:induction false} DeliverNotes(c: Registry, m: Model, k: nat, notes: seq<Note>, g: Field)
    requires |c.dirty| == FIELD_COUNT && PassesAll(m, k, notes)
    ensures Get(DeliverAll(c, ReceivedLines(m, k, notes)).model, g) ==
            if g in Landed(m, k, notes) then CopyOf(m, g) else Get(c.model, g)
    decreases |notes|
  {
    hide Get, CopyOf, Deliver, ReceivedLine, Passes;
    if |notes| > 0 {
      var n, k' := notes[0], Carry(m, k, notes[0]);
      var rest := ReceivedLines(m, k', notes[1..]);
      if Opens(m, n) {
        assert ReceivedLines(m, k, notes) == rest;
        DeliverNotes(c, m, k', notes[1..], g);
      } else {
        var line := ReceivedLine(m, k, n);
        var lines := [line] + rest;
        assert lines[1..] == rest;
        DeliverNote(c, m, k, n, g);
        DeliverNotes(Deliver(c, line), m, k', notes[1..], g);
      }
    }
  }

  // ---------------------------------------------------------------- tidy notes

  /** Without openings every note is tidy, and every noted field gets through. */
  lemma {:induction false} TidyPasses(m: Model, notes: seq<Note>)
    requires forall n :: n in notes ==> TidyNote(m, n)
    ensures PassesAll(m, 0, notes) && CarryAll(m, 0, notes) == 0
    ensures forall g :: ValueNote(g) in notes ==> g in Landed(m, 0, notes)
    decreases |notes|
  {
    hide TidyNote, Get, NoteLine, Passes;
    if |notes| > 0 {
      TidyPassesOne(m, notes[0]);
      TidyPasses(m, notes[1..]);
      assert notes == [notes[0]] + notes[1..];
    }
  }

  lemma TidyPassesOne(m: Model, n: Note)
    requires TidyNote(m, n)
    ensures Passes(m, 0, n) && !Opens(m, n)
  {
    hide ValueText, Name, EntriesJson;
  }
}
