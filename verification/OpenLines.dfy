/** What an open line can do: a request that produces one, and what happens if a line that has grown
    behind it is too long for the reader. */
module OpenLines {
  import opened DataModel
  import opened Fields
  import opened LineReader
  import opened Mirror
  import opened Receiver
  import opened Replication
  import opened ReplicationRuns
  import opened Requests
  import opened Search
  import opened Server
  import opened Text
  import opened Values
  import opened WatchGrammar
  import opened WatchRequest
  import opened WatchTable
  import opened Wrappers

  // ---------------------------------------------------------------- a request that loses a value

  /** A request for all changes of two fields. */
  function PairText(a: string, b: string): string {
    "watch={\"" + a + "\":true,\"" + b + "\":true}\n"
  }

  function Wish(name: string): Item {
    Item("", name, "", "", "true", "")
  }

  lemma WishGood(name: string)
    requires '"' !in name
    ensures Good(Wish(name))
  {}

  lemma PairPrinted(a: string, b: string)
    ensures Print([Wish(a), Wish(b)], None) == "\"" + a + "\":true,\"" + b + "\":true"
  {
    var items := [Wish(a), Wish(b)];
    OneEntry(b, "true");
    assert items[1..] == [Wish(b)];
    PrintMore(items, None);
    assert ItemText(Wish(a)) == "\"" + a + "\":true" by {
      assert Head(Wish(a)) == "\"" + a + "\"" && Body(Wish(a)) == "true";
    }
    assert "\"" + a + "\":true" + ("," + ("\"" + b + "\":true")) == "\"" + a + "\":true,\"" + b + "\":true";
  }

  lemma PairHandled(r: Registry, a: string, b: string, now: nat)
    requires |r.dirty| == FIELD_COUNT && '"' !in a && '"' !in b
    ensures HandleLine(r, PairText(a, b), now) == Execute(r, [Wish(a), Wish(b)], now)
  {
    hide Perform, Trim, Execute, HandleAssignment, HandleWatch, Print, Good;
    var items := [Wish(a), Wish(b)];
    var e := "{" + Print(items, None) + "}";
    PairPrinted(a, b);
    WishGood(a);
    WishGood(b);
    SplitLine("watch", e);
    assert PairText(a, b) == "watch" + "=" + e + "\n";
    TrimNothing(e);
    PrintedRequest(r, items, None, now);
  }

  lemma WishPerformed(r: Registry, f: Field, now: nat)
    requires SoundTable(r)
    ensures var r' := WatchField(r, f, 0.0, now).0;
            && Perform(r, Name(f), "true", now) == (Reply(r', LineOf(r.model, f)), false)
            && SoundTable(r') && r'.model == r.model && r'.dirty == r.dirty && Immediate(r'.watches, f)
  {
    hide LineOf, WatchMap, Immediate, SlotFor, Name;
    NotSpecialName(f);
    FindName(f);
    WatchRefines(r, f, 0.0, now);
    var i, ws' := SlotFor(r.watches, f), WatchField(r, f, 0.0, now).0.watches;
    RoomForAll(r.watches, f);
    assert ws'[i] == NewWatch(f, 0.0, now);
    ImmediateIff(ws', f, 0);
  }

  /** Such a request writes the two values, one after the other. */
  lemma PairWritten(r: Registry, f: Field, g: Field, now: nat)
    requires SoundTable(r)
    ensures var reply := HandleLine(r, PairText(Name(f), Name(g)), now);
            && reply.out == NotesText(r.model, [ValueNote(f), ValueNote(g)])
            && reply.reg.model == r.model && reply.reg.dirty == r.dirty && Immediate(reply.reg.watches, g)
  {
    hide Perform, HandleLine, LineOf, WatchField, Immediate, Name, PairText, NotesText;
    NameChars(f);
    NameChars(g);
    PairHandled(r, Name(f), Name(g), now);
    WishPerformed(r, f, now);
    var r1 := WatchField(r, f, 0.0, now).0;
    WishPerformed(r1, g, now);
    var items := [Wish(Name(f)), Wish(Name(g))];
    assert items[1..] == [Wish(Name(g))];
    ExecuteOne(r1, Wish(Name(g)), now);
    assert [ValueNote(f), ValueNote(g)] == [ValueNote(f)] + [ValueNote(g)];
    NotesTextConcat(r.model, [ValueNote(f)], [ValueNote(g)]);
    NotesTextOne(r.model, ValueNote(f));
    NotesTextOne(r.model, ValueNote(g));
  }

  /** The angle that cannot be read opens a line, and the other value is swallowed. */
  lemma PairLost(m: Model, g: Field)
    requires Get(m, RudderAngle) == None && Tidy(m, g) && |LineOf(m, RudderAngle) + LineOf(m, g)| <= CLIENT_CAPACITY
    ensures var notes := [ValueNote(RudderAngle), ValueNote(g)];
            PassesAll(m, 0, notes) && CarryAll(m, 0, notes) == 0 && Landed(m, 0, notes) == {}
  {
    hide ValueText, Name, Get;
    var a, b := ValueNote(RudderAngle), ValueNote(g);
    OpeningText(m, a);
    NoteWithoutEnd(m, b);
    assert [a, b][1..] == [b] && [b][1..] == [];
    assert Opens(m, a) && !Opens(m, b) && Passes(m, 0, a) && Passes(m, 1, b);
    assert PassesAll(m, 0, []) && PassesAll(m, 1, [b]);
    assert CarryAll(m, 1, [b]) == 0 && Landed(m, 1, [b]) == {};
  }

  /** A client that asks for the rudder angle, while it cannot be read, and for another field gets
      neither: no copy changes, although the server now counts the other field as sent. */
  lemma UnreadableSwallowsNext(r: Registry, b: Subscriber, g: Field, now: nat, h: Field)
    requires SoundTable(r) && |b.copy.dirty| == FIELD_COUNT && b.reader.buffer == ""
    requires Get(r.model, RudderAngle) == None && Tidy(r.model, g)
    requires |LineOf(r.model, RudderAngle) + LineOf(r.model, g)| <= CLIENT_CAPACITY
    ensures var reply := HandleLine(r, PairText(Name(RudderAngle), Name(g)), now);
            var b' := Receive(b, reply.out);
            && b'.reader.buffer == "" && Get(b'.copy.model, h) == Get(b.copy.model, h)
            && Immediate(reply.reg.watches, g) && reply.reg.dirty == r.dirty
  {
    hide HandleLine, Feed, Immediate, NotesText, DeliverAll, ReceivedLines, Get, PassesAll, CarryAll, Landed, Name, PairText, Tidy, LineOf;
    var m, notes := r.model, [ValueNote(RudderAngle), ValueNote(g)];
    PairWritten(r, RudderAngle, g, now);
    PairLost(m, g);
    assert OpenText(0) == "";
    ReadNotes(b.reader, m, 0, notes);
    FeedGrows(b.reader, NotesText(m, notes));
    var t := Feed(b.reader, NotesText(m, notes), CLIENT_OPTIONS, CLIENT_CAPACITY);
    assert t.lines[|b.reader.lines|..] == ReceivedLines(m, 0, notes);
    DeliverNotes(b.copy, m, 0, notes, h);
  }

  lemma NewServer()
    ensures var r := Started(INITIAL_MODEL);
            && SoundTable(r) && !r.dirty[Index(ApMode)] && Get(r.model, RudderAngle) == None
            && r.model.ap.mode == "compass"
  {}

  lemma CompassTidy(m: Model)
    requires m.ap.mode == "compass" && Get(m, RudderAngle) == None
    ensures Tidy(m, ApMode) && |LineOf(m, RudderAngle) + LineOf(m, ApMode)| <= CLIENT_CAPACITY
  {
    EscapedQuotesIff("compass");
    assert ValueText(StringValue("compass")) == "\"compass\"";
    ModeName();
  }

  lemma ModeName()
    ensures Name(ApMode) == "ap.mode" && Name(RudderAngle) == "rudder.angle"
  {}

  lemma BothText()
    ensures PairText(Name(RudderAngle), Name(ApMode)) == "watch={\"rudder.angle\":true,\"ap.mode\":true}\n"
  {
    hide Name;
    ModeName();
  }

  /** It happens to the first request of a client that asks a new server for the angle and the
      mode. */
  lemma ModeSwallowed(r: Registry, line: string, b: Subscriber, now: nat, h: Field)
    requires |b.copy.dirty| == FIELD_COUNT && b.reader.buffer == ""
    requires r == Started(INITIAL_MODEL) && line == "watch={\"rudder.angle\":true,\"ap.mode\":true}\n"
    ensures var reply := HandleLine(r, line, now);
            && Get(Receive(b, reply.out).copy.model, h) == Get(b.copy.model, h)
            && Immediate(reply.reg.watches, ApMode) && reply.reg.dirty == r.dirty && !r.dirty[Index(ApMode)]
  {
    hide HandleLine, Started, Immediate, Get, Receive, Name, Tidy, LineOf, PairText, Index;
    BothText();
    NewServer();
    CompassTidy(r.model);
    UnreadableSwallowsNext(r, b, ApMode, now, h);
  }

  // ---------------------------------------------------------------- a line that outgrows the reader

  function Filler(n: nat): string {
    if n == 0 then "" else Filler(n - 1) + "a"
  }

  lemma {:induction false} FillerChars(n: nat)
    ensures |Filler(n)| == n && forall i :: 0 <= i < n ==> Filler(n)[i] == 'a'
    decreases n
  {
    if n > 0 {
      FillerChars(n - 1);
    }
  }

  const LONG_FILLER: nat := 171

  /** A mode that ends like a line for another field. */
  function TrickyMode(): string {
    Filler(LONG_FILLER) + "ap.pilot=x"
  }

  lemma LineOfMode(m: Model, filler: string)
    requires m.ap.mode == filler + "ap.pilot=x" && EscapedQuotes(m.ap.mode) == m.ap.mode
    ensures LineOf(m, ApMode) == "ap.mode=\"" + filler + "ap.pilot=x\"" + "\n"
  {
    hide Name, EscapedQuotes;
    ModeName();
    assert "\"" + (filler + "ap.pilot=x") + "\"" == "\"" + filler + "ap.pilot=x\"";
  }

  lemma TrickyLine(m: Model)
    requires m.ap.mode == TrickyMode()
    ensures LineOf(m, ApMode) == "ap.mode=\"" + Filler(LONG_FILLER) + "ap.pilot=x\"" + "\n"
    ensures '\n' !in "ap.mode=\"" + Filler(LONG_FILLER) + "ap.pilot=x\""
  {
    hide Filler, LineOf;
    FillerChars(LONG_FILLER);
    TrickyPlain();
    LineOfMode(m, Filler(LONG_FILLER));
  }

  lemma TrickyPlain()
    ensures EscapedQuotes(TrickyMode()) == TrickyMode()
  {
    hide Filler, EscapedQuotes;
    FillerChars(LONG_FILLER);
    EscapedQuotesIff(TrickyMode());
  }

  lemma PilotLine(c: Registry)
    requires |c.dirty| == FIELD_COUNT
    ensures Get(Deliver(c, "ap.pilot=x\"").model, ApPilot) == Some(StringValue("x\""))
  {
    hide Find, Name, Deliver;
    PilotName();
    assert "ap.pilot" + "=" + "x\"" == "ap.pilot=x\"";
    StringDelivered(c, ApPilot, "x\"");
  }

  /** A text that is not in quotes is stored as it is. */
  lemma StringDelivered(c: Registry, f: Field, text: string)
    requires |c.dirty| == FIELD_COUNT && KindOf(f) == StringKind
    requires |text| > 0 && Trimmed(text) && text[0] != '"'
    ensures Get(Deliver(c, Name(f) + "=" + text).model, f) == Some(StringValue(text))
  {
    hide Find, Name, ParseRecord, Get, Put;
    NameChars(f);
    RecordOfLine(Name(f), text);
    FindName(f);
    NotSpecialName(f);
    PutGet(c.model, f, StringValue(text), f);
  }

  lemma PilotName()
    ensures Name(ApPilot) == "ap.pilot"
  {}

  /** Why lines must fit: behind an open line, a mode of 181 characters makes a line of 204.  The
      reader drops 193 of them and hands on the rest, which sets the copy of another field that
      nobody wrote. */
  lemma OverflowSetsAnother(m: Model, b: Subscriber)
    requires |b.copy.dirty| == FIELD_COUNT && b.reader.buffer == ""
    requires Get(m, RudderAngle) == None && m.ap.mode == TrickyMode()
    ensures |TrickyMode()| == 181
    ensures Get(Receive(b, LineOf(m, RudderAngle) + LineOf(m, ApMode)).copy.model, ApPilot) == Some(StringValue("x\""))
  {
    hide Feed, DeliverAll, Deliver, Filler, LineOf, Get, StripCr, Kept, Lost;
    FillerChars(LONG_FILLER);
    TrickyLine(m);
    AngleOpens(m);
    var line := OPENING + ("ap.mode=\"" + Filler(LONG_FILLER) + "ap.pilot=x\"");
    TailOfLine();
    WholeLine(b.reader, line, CLIENT_OPTIONS, CLIENT_CAPACITY);
    var text := LineOf(m, RudderAngle) + LineOf(m, ApMode);
    assert text == line + "\n";
    var t := Feed(b.reader, text, CLIENT_OPTIONS, CLIENT_CAPACITY);
    assert t.lines[|b.reader.lines|..] == ["ap.pilot=x\""];
    DeliverOne(b.copy, "ap.pilot=x\"");
    PilotLine(b.copy);
  }

  lemma AngleOpens(m: Model)
    requires Get(m, RudderAngle) == None
    ensures LineOf(m, RudderAngle) == OPENING
  {}

  lemma TailOfLine()
    ensures var line := OPENING + ("ap.mode=\"" + Filler(LONG_FILLER) + "ap.pilot=x\"");
            StripCr(Kept(line, CLIENT_OPTIONS, CLIENT_CAPACITY), CLIENT_OPTIONS) == "ap.pilot=x\""
  {
    hide Filler;
    FillerChars(LONG_FILLER);
    var front := OPENING + "ap.mode=\"" + Filler(LONG_FILLER);
    var line := OPENING + ("ap.mode=\"" + Filler(LONG_FILLER) + "ap.pilot=x\"");
    assert line == front + "ap.pilot=x\"";
    assert |front| == 193 && |line| == 204;
    assert Kept(line, CLIENT_OPTIONS, CLIENT_CAPACITY) == line[193..];
  }

  lemma DeliverOne(c: Registry, line: string)
    requires |c.dirty| == FIELD_COUNT
    ensures DeliverAll(c, [line]) == Deliver(c, line)
  {}
}
