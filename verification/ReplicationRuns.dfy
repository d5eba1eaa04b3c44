/** Runs of the server against one subscriber: after every poll the subscriber's copy of each
    field that it watches for changes agrees with the server's value. */
module ReplicationRuns {
  import opened Chunks
  import opened DataModel
  import opened Decimal
  import opened Fields
  import opened LineReader
  import opened Mirror
  import opened Receiver
  import opened Replication
  import opened Requests
  import opened Server
  import opened Text
  import opened Values
  import opened WatchTable
  import opened Wrappers

  // ---------------------------------------------------------------- what a poll writes

  function ChangedNotes(r: Registry, i: nat): seq<Note>
    requires |r.dirty| == FIELD_COUNT && i <= FIELD_COUNT
    decreases FIELD_COUNT - i
  {
    if i == FIELD_COUNT then []
    else
      (if r.dirty[i] && Immediate(r.watches, FieldAt(i)) then [ValueNote(FieldAt(i))] else []) + ChangedNotes(r, i + 1)
  }

  lemma {:induction false} ChangedTextNotes(r: Registry, i: nat)
    requires |r.dirty| == FIELD_COUNT && i <= FIELD_COUNT
    ensures ChangedText(r, i) == NotesText(r.model, ChangedNotes(r, i))
    ensures forall k :: i <= k < FIELD_COUNT && r.dirty[k] && Immediate(r.watches, FieldAt(k)) ==>
                          ValueNote(FieldAt(k)) in ChangedNotes(r, i)
    ensures forall n :: n in ChangedNotes(r, i) ==> n.ValueNote? && IsWatched(r.watches, n.field)
    decreases FIELD_COUNT - i
  {
    hide LineOf, Immediate, FieldAt, IsWatched, NotesText;
    if i == FIELD_COUNT {
      NotesTextNone(r.model);
    } else {
      ChangedTextNotes(r, i + 1);
      var f := FieldAt(i);
      if r.dirty[i] && Immediate(r.watches, f) {
        NotesTextOne(r.model, ValueNote(f));
        NotesTextConcat(r.model, [ValueNote(f)], ChangedNotes(r, i + 1));
        ImmediateWatched(r.watches, f);
      } else {
        assert [] + ChangedNotes(r, i + 1) == ChangedNotes(r, i + 1);
      }
    }
  }

  lemma NotesTextNone(m: Model)
    ensures NotesText(m, []) == ""
  {}

  lemma ImmediateWatched(ws: seq<Watch>, f: Field)
    requires Immediate(ws, f)
    ensures IsWatched(ws, f)
  {
    ImmediateIff(ws, f, 0);
  }

  function DueNotes(ws: seq<Watch>, now: nat, i: nat): seq<Note>
    requires i <= |ws|
    decreases |ws| - i
  {
    if i == |ws| then [] else (if DueNow(ws[i], now) then [ValueNote(ws[i].field)] else []) + DueNotes(ws, now, i + 1)
  }

  lemma DueNotesStep(ws: seq<Watch>, now: nat, i: nat)
    requires i < |ws|
    ensures var rest := DueNotes(ws, now, i + 1);
            DueNotes(ws, now, i) == if DueNow(ws[i], now) then [ValueNote(ws[i].field)] + rest else rest
  {}

  lemma {:induction false} DueTextNotes(m: Model, ws: seq<Watch>, now: nat, i: nat)
    requires i <= |ws|
    ensures DueText(m, ws, now, i) == NotesText(m, DueNotes(ws, now, i))
    decreases |ws| - i
  {
    hide LineOf, NotesText, DueNotes, DueNow;
    if i == |ws| {
      NoDueNotes(ws, now);
      NotesTextNone(m);
    } else {
      var rest := DueNotes(ws, now, i + 1);
      DueTextNotes(m, ws, now, i + 1);
      DueNotesStep(ws, now, i);
      NotesTextOne(m, ValueNote(ws[i].field));
      NotesTextConcat(m, [ValueNote(ws[i].field)], rest);
      assert "" + DueText(m, ws, now, i + 1) == DueText(m, ws, now, i + 1);
    }
  }

  lemma NoDueNotes(ws: seq<Watch>, now: nat)
    ensures DueNotes(ws, now, |ws|) == []
  {}

  lemma {:induction false} DueNotesWatched(ws: seq<Watch>, now: nat, i: nat)
    requires i <= |ws|
    ensures forall n :: n in DueNotes(ws, now, i) ==> n.ValueNote? && IsWatched(ws, n.field)
    decreases |ws| - i
  {
    if i < |ws| {
      DueNotesWatched(ws, now, i + 1);
      DueNotesStep(ws, now, i);
      hide DueNotes;
    }
  }

  function WatchedFields(ws: seq<Watch>): set<Field> {
    set f | f in AllFields() && IsWatched(ws, f)
  }

  function PollNotes(r: Registry, now: nat): seq<Note>
    requires |r.dirty| == FIELD_COUNT
  {
    ChangedNotes(r, 0) + DueNotes(r.watches, now, 0)
  }

  lemma PolledIs(r: Registry, now: nat)
    requires |r.dirty| == FIELD_COUNT
    ensures Polled(r, now).reg == Registry(r.model, AllRescheduled(r.watches, now), AllClean())
    ensures Polled(r, now).out == ChangedText(r, 0) + DueText(r.model, r.watches, now, 0)
  {}

  lemma PollText(r: Registry, now: nat)
    requires |r.dirty| == FIELD_COUNT
    ensures Polled(r, now).out == NotesText(r.model, PollNotes(r, now))
    ensures NotesWithin(PollNotes(r, now), WatchedFields(r.watches))
    ensures forall n :: n in PollNotes(r, now) ==> n.ValueNote?
  {
    hide Polled, NotesText, ChangedText, DueText, ChangedNotes, DueNotes, IsWatched, FieldAt, Immediate;
    PolledIs(r, now);
    ChangedTextNotes(r, 0);
    DueTextNotes(r.model, r.watches, now, 0);
    DueNotesWatched(r.watches, now, 0);
    NotesTextConcat(r.model, ChangedNotes(r, 0), DueNotes(r.watches, now, 0));
  }

  lemma PollCovers(r: Registry, now: nat, f: Field)
    requires |r.dirty| == FIELD_COUNT && Immediate(AllRescheduled(r.watches, now), f)
    ensures Immediate(r.watches, f) && (r.dirty[Index(f)] ==> ValueNote(f) in PollNotes(r, now))
  {
    hide ChangedText, ChangedNotes, DueNotes, Immediate, AllRescheduled, FieldAt, Index, IsWatched, NotesText;
    RescheduledImmediate(r.watches, now, f);
    ChangedTextNotes(r, 0);
    assert FieldAt(Index(f)) == f;
  }

  lemma PollExplained(r: Registry, now: nat)
    requires |r.dirty| == FIELD_COUNT
    ensures var reply, notes := Polled(r, now), PollNotes(r, now);
            Explains(r, reply.reg, reply.out, notes) && NotesWithin(notes, WatchedFields(r.watches))
  {
    hide Polled, PollNotes, Get, Immediate, Index, NotesText, AllRescheduled, WatchedFields;
    PollText(r, now);
    PolledIs(r, now);
    forall f | Immediate(AllRescheduled(r.watches, now), f)
      ensures Immediate(r.watches, f) && (r.dirty[Index(f)] ==> ValueNote(f) in PollNotes(r, now))
    {
      PollCovers(r, now, f);
    }
  }

  // ---------------------------------------------------------------- runs

  datatype Step =
    | Request(line: string, now: nat)
    | Change(field: Field, value: Value)
    | PollAt(now: nat)

  function Apply(r: Registry, s: Step): Reply
    requires |r.dirty| == FIELD_COUNT
  {
    match s
    case Request(line, now) => HandleLine(r, line, now)
    case Change(f, v) => Reply(SetField(r, f, v).0, "")
    case PollAt(now) => Polled(r, now)
  }

  /** What a step writes. */
  function StepNotes(r: Registry, s: Step): seq<Note>
    requires |r.dirty| == FIELD_COUNT
  {
    match s
    case Request(line, now) => LineNotes(r, line, now)
    case Change(_, _) => []
    case PollAt(now) => PollNotes(r, now)
  }

  lemma ApplyExplained(r: Registry, s: Step)
    requires |r.dirty| == FIELD_COUNT
    ensures var reply := Apply(r, s); Explains(r, reply.reg, reply.out, StepNotes(r, s))
  {
    hide Explains, HandleLine, LineNotes, SetField, Polled, PollNotes;
    match s
    case Request(line, now) => HandleLineExplained(r, line, now);
    case Change(f, v) => SetExplained(r, f, v);
    case PollAt(now) => PollExplained(r, now);
  }

  lemma ApplyKeepsSize(r: Registry, s: Step)
    requires |r.dirty| == FIELD_COUNT
    ensures |Apply(r, s).reg.dirty| == FIELD_COUNT
  {
    hide Apply, StepNotes;
    ApplyExplained(r, s);
  }

  function RunAll(r: Registry, steps: seq<Step>): (end: Reply)
    requires |r.dirty| == FIELD_COUNT
    ensures |end.reg.dirty| == FIELD_COUNT
    decreases |steps|
  {
    if |steps| == 0 then Reply(r, "")
    else
      ApplyKeepsSize(r, steps[0]);
      var first := Apply(r, steps[0]);
      var rest := RunAll(first.reg, steps[1..]);
      Reply(rest.reg, first.out + rest.out)
  }

  // ---------------------------------------------------------------- what gets through

  /** The openings that are left at the end of a run, if `k` are there at the start. */
  function RunCarry(r: Registry, k: nat, steps: seq<Step>): nat
    requires |r.dirty| == FIELD_COUNT
    decreases |steps|
  {
    if |steps| == 0 then k
    else
      ApplyKeepsSize(r, steps[0]);
      var r' := Apply(r, steps[0]).reg;
      RunCarry(r', CarryAll(r'.model, k, StepNotes(r, steps[0])), steps[1..])
  }

  /** Whatever is written is tidy or an opening, and no line of openings and a note outgrows the
      reader's buffer. */
  predicate RunPasses(r: Registry, k: nat, steps: seq<Step>)
    requires |r.dirty| == FIELD_COUNT
    decreases |steps|
  {
    if |steps| == 0 then true
    else
      ApplyKeepsSize(r, steps[0]);
      var r', notes := Apply(r, steps[0]).reg, StepNotes(r, steps[0]);
      PassesAll(r'.model, k, notes) && RunPasses(r', CarryAll(r'.model, k, notes), steps[1..])
  }

  /** Whatever is written is tidy: no field is written while it cannot be read. */
  predicate TidyRun(r: Registry, steps: seq<Step>)
    requires |r.dirty| == FIELD_COUNT
    decreases |steps|
  {
    if |steps| == 0 then true
    else
      ApplyKeepsSize(r, steps[0]);
      var r', notes := Apply(r, steps[0]).reg, StepNotes(r, steps[0]);
      (forall n :: n in notes ==> TidyNote(r'.model, n)) && TidyRun(r', steps[1..])
  }

  /** The fields in the notes. */
  function Noted(notes: seq<Note>): set<Field> {
    set f | f in AllFields() && ValueNote(f) in notes
  }

  /** The fields whose last value did not get through. */
  function Missing(r: Registry, k: nat, steps: seq<Step>, missing: set<Field>): set<Field>
    requires |r.dirty| == FIELD_COUNT
    decreases |steps|
  {
    if |steps| == 0 then missing
    else
      ApplyKeepsSize(r, steps[0]);
      var r', notes := Apply(r, steps[0]).reg, StepNotes(r, steps[0]);
      Missing(r', CarryAll(r'.model, k, notes), steps[1..], missing + Noted(notes) - Landed(r'.model, k, notes))
  }

  /** The copy of a field after a run: the value that last got through. */
  function CopyAfter(r: Registry, k: nat, steps: seq<Step>, g: Field, copy: Option<Value>): Option<Value>
    requires |r.dirty| == FIELD_COUNT
    decreases |steps|
  {
    if |steps| == 0 then copy
    else
      ApplyKeepsSize(r, steps[0]);
      var r', notes := Apply(r, steps[0]).reg, StepNotes(r, steps[0]);
      CopyAfter(r', CarryAll(r'.model, k, notes), steps[1..], g, if g in Landed(r'.model, k, notes) then CopyOf(r'.model, g) else copy)
  }

  /** The subscriber: a line reader and the copy that it fills. */
  datatype Subscriber = Subscriber(reader: State, copy: Registry)

  /** One chunk of bytes arrives: the lines that it completes are handled. */
  function Receive(b: Subscriber, chunk: string): (b': Subscriber)
    requires |b.copy.dirty| == FIELD_COUNT
    ensures |b'.copy.dirty| == FIELD_COUNT
  {
    var t := Feed(b.reader, chunk, CLIENT_OPTIONS, CLIENT_CAPACITY);
    FeedGrows(b.reader, chunk);
    Subscriber(t, DeliverAll(b.copy, t.lines[|b.reader.lines|..]))
  }

  lemma {:induction false} FeedGrows(s: State, input: string)
    ensures var t := Feed(s, input, CLIENT_OPTIONS, CLIENT_CAPACITY);
            |s.lines| <= |t.lines| && s.lines == t.lines[..|s.lines|]
    decreases |input|
  {
    if |input| > 0 {
      FeedGrows(s, input[..|input| - 1]);
    }
  }

  function ReceiveAll(b: Subscriber, chunks: seq<string>): (b': Subscriber)
    requires |b.copy.dirty| == FIELD_COUNT
    ensures |b'.copy.dirty| == FIELD_COUNT
    decreases |chunks|
  {
    if |chunks| == 0 then b else ReceiveAll(Receive(b, chunks[0]), chunks[1..])
  }

  lemma {:induction false} DeliverConcat(c: Registry, a: seq<string>, b: seq<string>)
    requires |c.dirty| == FIELD_COUNT
    ensures DeliverAll(c, a + b) == DeliverAll(DeliverAll(c, a), b)
    decreases |a|
  {
    hide Deliver;
    if |a| == 0 {
      assert a + b == b;
    } else {
      assert (a + b)[1..] == a[1..] + b;
      DeliverConcat(Deliver(c, a[0]), a[1..], b);
    }
  }

  /** Two chunks have the effect of one. */
  lemma ReceiveConcat(b: Subscriber, x: string, y: string)
    requires |b.copy.dirty| == FIELD_COUNT
    ensures Receive(b, x + y) == Receive(Receive(b, x), y)
  {
    hide Feed, DeliverAll;
    var s := b.reader;
    FeedConcat(s, x, y, CLIENT_OPTIONS, CLIENT_CAPACITY);
    var t := Feed(s, x, CLIENT_OPTIONS, CLIENT_CAPACITY);
    var u := Feed(t, y, CLIENT_OPTIONS, CLIENT_CAPACITY);
    FeedGrows(s, x);
    FeedGrows(t, y);
    var first, second := t.lines[|s.lines|..], u.lines[|t.lines|..];
    assert u.lines[|s.lines|..] == first + second;
    DeliverConcat(b.copy, first, second);
  }

  /** How the bytes are cut into chunks does not matter. */
  lemma {:induction false} ChunksDoNotMatter(b: Subscriber, chunks: seq<string>)
    requires |b.copy.dirty| == FIELD_COUNT
    ensures ReceiveAll(b, chunks) == Receive(b, Flatten(chunks))
    decreases |chunks|
  {
    hide Receive;
    if |chunks| == 0 {
      ReceiveNothing(b);
    } else {
      ChunksDoNotMatter(Receive(b, chunks[0]), chunks[1..]);
      ReceiveConcat(b, chunks[0], Flatten(chunks[1..]));
    }
  }

  lemma ReceiveNothing(b: Subscriber)
    requires |b.copy.dirty| == FIELD_COUNT
    ensures Receive(b, "") == b
  {}

  // ---------------------------------------------------------------- the copies after a run

  /** What a step writes changes exactly the copies of the fields whose values get through. */
  lemma StepCopies(r: Registry, s: Step, k: nat, b: Subscriber, g: Field)
    requires |r.dirty| == |b.copy.dirty| == FIELD_COUNT && b.reader.buffer == OpenText(k)
    requires PassesAll(Apply(r, s).reg.model, k, StepNotes(r, s))
    ensures var r', notes, b' := Apply(r, s).reg, StepNotes(r, s), Receive(b, Apply(r, s).out);
            && b'.reader.buffer == OpenText(CarryAll(r'.model, k, notes))
            && Get(b'.copy.model, g) == if g in Landed(r'.model, k, notes) then CopyOf(r'.model, g) else Get(b.copy.model, g)
  {
    hide Apply, StepNotes, Feed, NotesText, PassesAll, Get, DeliverAll, CopyOf, ReceivedLines, OpenText, CarryAll, Landed, Covered;
    var r', notes := Apply(r, s).reg, StepNotes(r, s);
    ApplyExplained(r, s);
    ReadNotes(b.reader, r'.model, k, notes);
    FeedGrows(b.reader, Apply(r, s).out);
    var t := Feed(b.reader, Apply(r, s).out, CLIENT_OPTIONS, CLIENT_CAPACITY);
    assert t.lines[|b.reader.lines|..] == ReceivedLines(r'.model, k, notes);
    DeliverNotes(b.copy, r'.model, k, notes, g);
  }

  /** One step: a copy is brought up to date exactly when, among what the step writes, a note of
      the field can be read and does not directly follow an opening, be it of this step or left
      over from the one before; no other copy changes. */
  lemma StepCopiesIff(r: Registry, s: Step, k: nat, b: Subscriber, g: Field)
    requires |r.dirty| == |b.copy.dirty| == FIELD_COUNT && b.reader.buffer == OpenText(k)
    requires PassesAll(Apply(r, s).reg.model, k, StepNotes(r, s))
    ensures var m, notes, b' := Apply(r, s).reg.model, StepNotes(r, s), Receive(b, Apply(r, s).out);
            Get(b'.copy.model, g) ==
            if exists i :: 0 <= i < |notes| && LandsAt(m, k, notes, g, i) then CopyOf(m, g) else Get(b.copy.model, g)
  {
    hide Apply, StepNotes, PassesAll, Get, CopyOf, OpenText, CarryAll, Landed, LandsAt, Receive;
    StepCopies(r, s, k, b, g);
    LandedIff(Apply(r, s).reg.model, k, StepNotes(r, s), g);
  }

  /** Every run: each copy is the last value that got through. */
  lemma {:induction false} RunCopies(r: Registry, k: nat, steps: seq<Step>, b: Subscriber, g: Field)
    requires |r.dirty| == |b.copy.dirty| == FIELD_COUNT && b.reader.buffer == OpenText(k)
    requires RunPasses(r, k, steps)
    ensures var b' := Receive(b, RunAll(r, steps).out);
            && b'.reader.buffer == OpenText(RunCarry(r, k, steps))
            && Get(b'.copy.model, g) == CopyAfter(r, k, steps, g, Get(b.copy.model, g))
    decreases |steps|
  {
    hide Apply, StepNotes, Receive, PassesAll, OpenText, Get, CopyOf, Landed, CarryAll;
    if |steps| == 0 {
      ReceiveNothing(b);
    } else {
      var first, notes := Apply(r, steps[0]), StepNotes(r, steps[0]);
      var k' := CarryAll(first.reg.model, k, notes);
      ApplyKeepsSize(r, steps[0]);
      StepCopies(r, steps[0], k, b, g);
      RunCopies(first.reg, k', steps[1..], Receive(b, first.out), g);
      ReceiveConcat(b, first.out, RunAll(first.reg, steps[1..]).out);
    }
  }

  // ---------------------------------------------------------------- the invariant

  /** A field watched for all changes is dirty, or its last value did not get through, or its copy
      is right. */
  predicate InSync(r: Registry, copy: Option<Value>, missing: set<Field>, f: Field)
    requires |r.dirty| == FIELD_COUNT
  {
    Immediate(r.watches, f) ==> r.dirty[Index(f)] || f in missing || copy == CopyOf(r.model, f)
  }

  lemma StepKeepsSync(r: Registry, s: Step, k: nat, missing: set<Field>, copy: Option<Value>, f: Field)
    requires |r.dirty| == FIELD_COUNT && InSync(r, copy, missing, f)
    ensures var r', notes := Apply(r, s).reg, StepNotes(r, s);
            var landed := Landed(r'.model, k, notes);
            && |r'.dirty| == FIELD_COUNT
            && InSync(r', if f in landed then CopyOf(r'.model, f) else copy, missing + Noted(notes) - landed, f)
  {
    hide Apply, StepNotes, NotesText, Get, Immediate, CopyOf, Index, Landed, TidyNote;
    ApplyExplained(r, s);
    SameCopy(r.model, Apply(r, s).reg.model, f);
  }

  lemma SameCopy(m: Model, m': Model, f: Field)
    ensures Get(m, f) == Get(m', f) ==> CopyOf(m, f) == CopyOf(m', f)
  {}

  /** The invariant holds after every run. */
  lemma {:induction false} RunKeepsSync(r: Registry, k: nat, steps: seq<Step>, missing: set<Field>, copy: Option<Value>, f: Field)
    requires |r.dirty| == FIELD_COUNT && InSync(r, copy, missing, f)
    ensures InSync(RunAll(r, steps).reg, CopyAfter(r, k, steps, f, copy), Missing(r, k, steps, missing), f)
    decreases |steps|
  {
    hide Apply, StepNotes, InSync, Landed, CarryAll, CopyOf, Noted;
    if |steps| > 0 {
      var r', notes := Apply(r, steps[0]).reg, StepNotes(r, steps[0]);
      var landed := Landed(r'.model, k, notes);
      StepKeepsSync(r, steps[0], k, missing, copy, f);
      RunKeepsSync(r', CarryAll(r'.model, k, notes), steps[1..], missing + Noted(notes) - landed,
        if f in landed then CopyOf(r'.model, f) else copy, f);
    }
  }

  lemma {:induction false} RunConcat(r: Registry, a: seq<Step>, s: Step)
    requires |r.dirty| == FIELD_COUNT
    ensures RunAll(r, a + [s]).reg == Apply(RunAll(r, a).reg, s).reg
    decreases |a|
  {
    hide Apply;
    if |a| == 0 {
      assert a + [s] == [s];
    } else {
      assert (a + [s])[1..] == a[1..] + [s];
      ApplyKeepsSize(r, a[0]);
      RunConcat(Apply(r, a[0]).reg, a[1..], s);
    }
  }

  lemma StartInSync(m: Model, copy: Option<Value>, f: Field)
    ensures InSync(Started(m), copy, {}, f)
  {
    hide Get, Put, Immediate;
    var ws := Started(m).watches;
    assert ws == seq(MAX_WATCHES, i => EMPTY_WATCH);
    ImmediateIff(ws, f, 0);
  }

  /** Replication, fields that cannot be read included.  A server starts with any state and goes
      through any run of request lines, changes of fields and polls that ends with a poll; its
      bytes reach a subscriber, whatever the copy holds at the start, in any chunks.  Then the
      copy of every field that is watched for all changes, and whose last value got through, is
      the mirror image of the server's value. */
  lemma CopiesAgreeUnlessMissing(m: Model, steps: seq<Step>, now: nat, copy: Registry, chunks: seq<string>, f: Field)
    requires |copy.dirty| == FIELD_COUNT && RunPasses(Started(m), 0, steps + [PollAt(now)])
    ensures var run := steps + [PollAt(now)];
            var end := RunAll(Started(m), run);
            Flatten(chunks) == end.out && Immediate(end.reg.watches, f) && f !in Missing(Started(m), 0, run, {}) ==>
              Get(ReceiveAll(Subscriber(FRESH, copy), chunks).copy.model, f) == CopyOf(end.reg.model, f)
  {
    hide Started, RunPasses, RunAll, Receive, Immediate, Get, CopyOf, Index, ChangedText, DueText, Missing, CopyAfter;
    var r, run, b := Started(m), steps + [PollAt(now)], Subscriber(FRESH, copy);
    StartInSync(m, Get(copy.model, f), f);
    RunCopies(r, 0, run, b, f);
    RunKeepsSync(r, 0, run, {}, Get(copy.model, f), f);
    ChunksDoNotMatter(b, chunks);
    RunConcat(r, steps, PollAt(now));
    assert !RunAll(r, run).reg.dirty[Index(f)];
  }

  /** If nothing is written while it cannot be read, nothing goes missing. */
  lemma {:induction false} TidyRunPasses(r: Registry, steps: seq<Step>)
    requires |r.dirty| == FIELD_COUNT && TidyRun(r, steps)
    ensures RunPasses(r, 0, steps) && Missing(r, 0, steps, {}) == {}
    decreases |steps|
  {
    hide Apply, StepNotes, PassesAll, Landed, CarryAll, TidyNote, AllFields;
    if |steps| > 0 {
      var r', notes := Apply(r, steps[0]).reg, StepNotes(r, steps[0]);
      ApplyKeepsSize(r, steps[0]);
      TidyPasses(r'.model, notes);
      assert {} + Noted(notes) - Landed(r'.model, 0, notes) == {};
      TidyRunPasses(r', steps[1..]);
    }
  }

  /** Replication: if nothing is written while it cannot be read, every copy is right. */
  lemma CopiesAgree(m: Model, steps: seq<Step>, now: nat, copy: Registry, chunks: seq<string>, f: Field)
    requires |copy.dirty| == FIELD_COUNT && TidyRun(Started(m), steps + [PollAt(now)])
    ensures var end := RunAll(Started(m), steps + [PollAt(now)]);
            Flatten(chunks) == end.out && Immediate(end.reg.watches, f) ==>
              Get(ReceiveAll(Subscriber(FRESH, copy), chunks).copy.model, f) == CopyOf(end.reg.model, f)
  {
    hide Started, TidyRun, RunPasses, RunAll, ReceiveAll, Immediate, Get, CopyOf, Missing;
    TidyRunPasses(Started(m), steps + [PollAt(now)]);
    CopiesAgreeUnlessMissing(m, steps, now, copy, chunks, f);
  }

  // ---------------------------------------------------------------- how good a copy is

  /** The mirror image is the value itself for booleans, for strings without quotes and
      backslashes, and for numbers with at most four decimals; and in no other case. */
  lemma MirrorExactIff(v: Value)
    ensures Mirrored(v) == v <==>
            match v
            case BooleanValue(_) => true
            case StringValue(s) => NoEscapes(s)
            case RealValue(x) => Magnitude(x) * 10000.0 == (Magnitude(x) * 10000.0).Floor as real
  {
    match v
    case BooleanValue(_) =>
    case StringValue(s) => EscapedQuotesIff(s);
    case RealValue(x) => RoundedExactIff(x);
  }

  lemma RoundedExactIff(x: real)
    ensures Rounded(x, 4) == x <==> Magnitude(x) * 10000.0 == (Magnitude(x) * 10000.0).Floor as real
  {}

  /** A copied number is off by at most half a unit of the fourth decimal. */
  lemma RoundedClose(x: real)
    ensures -0.00005 <= Rounded(x, 4) - x <= 0.00005
  {}
}
