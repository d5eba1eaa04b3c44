/** What the server does with each kind of line, in literal terms. */
module Replies {
  import opened ClientText
  import opened DataModel
  import opened Decimal
  import opened Fields
  import opened Mirror
  import opened NumberText
  import opened Requests
  import opened Search
  import opened Server
  import opened Text
  import opened Values
  import opened WatchTable
  import opened Wrappers

  // ---------------------------------------------------------------- blanks

  /** Space, tab, CR and LF are trimmed, and nothing else. */
  lemma TrimsExactly(c: char)
    ensures Trim([c]) == if c == ' ' || c == '\t' || c == '\r' || c == '\n' then "" else [c]
  {
    if IsBlank(c) {
      TrimAround([c], "", "");
      assert [c] + "" + "" == [c];
    } else {
      TrimNothing([c]);
    }
  }

  // ---------------------------------------------------------------- error texts

  lemma SetError()
    ensures ErrorLine(INVALID_SET) == "error=invalid set\n"
  {
    assert "error=" + "invalid set" == "error=invalid set";
  }

  lemma EqualsError()
    ensures ErrorLine(MISSING_EQUALS) == "error=invalid request: missing '='\n"
  {
    assert "error=" + "invalid request: missing '='" == "error=invalid request: missing '='";
  }

  lemma ValueError()
    ensures ErrorLine(UNKNOWN_VALUE) == "error=invalid unknown value\n"
  {
    assert "error=" + "invalid unknown value" == "error=invalid unknown value";
  }

  lemma PeriodError()
    ensures ErrorLine(INVALID_PERIOD) == "error=invalid watch period\n"
  {
    assert "error=" + "invalid watch period" == "error=invalid watch period";
  }

  lemma WatchError()
    ensures ErrorLine(INVALID_WATCH) == "error=invalid watch request\n"
  {
    assert "error=" + "invalid watch request" == "error=invalid watch request";
  }

  lemma RegistrationError()
    ensures ErrorLine(NO_REGISTRATION) == "error=" + "remote value registration not implemented" + "\n"
  {}

  lemma SetErrors()
    ensures ErrorLine(INVALID_SET) == "error=invalid set\n"
    ensures ErrorLine(MISSING_EQUALS) == "error=invalid request: missing '='\n"
  {
    hide ErrorLine;
    SetError();
    EqualsError();
  }

  lemma WatchErrors()
    ensures ErrorLine(UNKNOWN_VALUE) == "error=invalid unknown value\n"
    ensures ErrorLine(INVALID_PERIOD) == "error=invalid watch period\n"
    ensures ErrorLine(INVALID_WATCH) == "error=invalid watch request\n"
  {
    hide ErrorLine;
    ValueError();
    PeriodError();
    WatchError();
  }

  // ---------------------------------------------------------------- assignments

  lemma NameHandled(r: Registry, name: string, json: string, now: nat)
    requires |r.dirty| == FIELD_COUNT && |name| > 0 && Trimmed(name) && '=' !in name
    requires name != "watch" && name != "values" && name != "udp_port"
    ensures HandleLine(r, name + "=" + json + "\n", now) == HandleAssignment(r, name, Trim(json))
  {
    hide Trim, HandleAssignment, HandleWatch;
    SplitLine(name, json);
  }

  /** A boolean field takes three spellings of each value and refuses every other text. */
  lemma BoolForms(r: Registry, f: Field, json: string, now: nat)
    requires |r.dirty| == FIELD_COUNT && Writable(f) && KindOf(f) == BooleanKind && Trimmed(json)
    ensures HandleLine(r, Name(f) + "=" + json + "\n", now) ==
            if json == "true" || json == "True" || json == "1" then Reply(SetField(r, f, BooleanValue(true)).0, "")
            else if json == "false" || json == "False" || json == "0" then Reply(SetField(r, f, BooleanValue(false)).0, "")
            else Reply(r, "error=invalid set\n")
  {
    hide HandleLine, Name, Find, Put;
    NameChars(f);
    NotSpecialName(f);
    NameHandled(r, Name(f), json, now);
    TrimNothing(json);
    FindName(f);
    PutGet(r.model, f, BooleanValue(true), f);
    PutGet(r.model, f, BooleanValue(false), f);
  }

  /** What that means for the autopilot: the text 1 switches it on, 0 switches it off. */
  lemma EnableStored(r: Registry, on: bool, now: nat)
    requires |r.dirty| == FIELD_COUNT
    ensures var reply := HandleLine(r, "ap.enabled=" + (if on then "1" else "0") + "\n", now);
            && |reply.reg.dirty| == FIELD_COUNT && reply.out == "" && reply.reg.watches == r.watches
            && reply.reg.model == r.model.(ap := r.model.ap.(enabled := on))
            && forall f: Field :: reply.reg.dirty[Index(f)] == (f == ApEnabled || r.dirty[Index(f)])
  {
    hide HandleLine, Name;
    EnabledName();
    var json := if on then "1" else "0";
    BoolForms(r, ApEnabled, json, now);
    assert "ap.enabled=" + json + "\n" == Name(ApEnabled) + "=" + json + "\n";
    forall f: Field ensures f == ApEnabled || Index(f) != Index(ApEnabled) {
      assert FieldAt(Index(f)) == f;
    }
  }

  lemma EnabledName()
    ensures Name(ApEnabled) == "ap.enabled" && Name(ApHeadingCommand) == "ap.heading_command" && Name(ApMode) == "ap.mode"
  {}

  /** A number that a client sends for the commanded heading is the one that the autopilot steers
      by. */
  lemma HeadingStored(r: Registry, x: real, now: nat)
    requires |r.dirty| == FIELD_COUNT
    ensures HandleLine(r, RecordText("ap.heading_command", RealText(x)), now).reg.model ==
            r.model.(ap := r.model.ap.(headingCommand := ArrivedReal(x)))
  {
    hide HandleLine, RealText, ArrivedReal, Name;
    EnabledName();
    SetRealArrives(r, ApHeadingCommand, x, now);
  }

  /** Only the first 31 characters of a number are read. */
  lemma LongNumberCut(digits: string)
    requires AllDigits(digits) && |digits| > 31
    ensures ParseReal(digits) == Some(ValueOf(digits[..31]) as real)
  {
    hide Strtof, ValueOf;
    var s := digits[..31];
    StrtofReads(false, s, "");
    assert "" + s + PointFraction("") == s;
    WholeValue(s);
  }

  /** A field that is not writable, or whose number cannot be read, is refused. */
  lemma RefusedSets(r: Registry, f: Field, json: string, now: nat)
    requires |r.dirty| == FIELD_COUNT && Trimmed(json)
    requires !Writable(f) || (KindOf(f) == RealKind && |json| > 0 && 'a' <= json[0] <= 'z')
    ensures HandleLine(r, Name(f) + "=" + json + "\n", now) == Reply(r, "error=invalid set\n")
  {
    hide HandleLine, Name, Find, Put, ParseReal;
    NameChars(f);
    NotSpecialName(f);
    NameHandled(r, Name(f), json, now);
    TrimNothing(json);
    FindName(f);
    if |json| > 0 && 'a' <= json[0] <= 'z' {
      NotANumber(json);
    }
  }

  /** The fields that may be written, by name. */
  lemma WritableNames(f: Field)
    ensures Writable(f) <==>
            Name(f) in {"ap.enabled", "ap.mode", "ap.pilot", "ap.heading_command", "rudder.offset", "rudder.range", "servo.command"}
  {
    hide Name;
    NamesOfWritable();
    forall g | Name(f) == Name(g) ensures f == g {
      NamesDistinct(f, g);
    }
  }

  lemma NamesOfWritable()
    ensures Name(ApEnabled) == "ap.enabled" && Name(ApMode) == "ap.mode" && Name(ApPilot) == "ap.pilot"
    ensures Name(ApHeadingCommand) == "ap.heading_command" && Name(RudderOffset) == "rudder.offset"
    ensures Name(RudderRange) == "rudder.range" && Name(ServoCommand) == "servo.command"
  {}

  /** Names that belong to no field. */
  lemma OtherNames(r: Registry, name: string, json: string, now: nat)
    requires |r.dirty| == FIELD_COUNT && |name| > 0 && Trimmed(name) && '=' !in name && '.' !in name && name != "watch"
    ensures HandleLine(r, name + "=" + json + "\n", now) ==
            Reply(r, if name == "udp_port" then ""
                     else if name == "values" then "error=" + "remote value registration not implemented" + "\n"
                     else "error=invalid set\n")
  {
    hide Trim, HandleWatch, ErrorLine, IndexOf, HandleAssignment;
    SetErrors();
    RegistrationError();
    SplitLine(name, json);
    UnknownAssignment(r, name, Trim(json));
  }

  lemma UnknownAssignment(r: Registry, name: string, value: string)
    requires |r.dirty| == FIELD_COUNT && '.' !in name
    ensures HandleAssignment(r, name, value) == Reply(r, ErrorLine(INVALID_SET))
  {
    hide Find, ErrorLine;
    NoSuchField(name);
  }

  /** Lines without an equals sign: blank ones are passed over, all others refused. */
  lemma NoEquals(r: Registry, line: string, now: nat)
    requires |r.dirty| == FIELD_COUNT && '=' !in line
    ensures HandleLine(r, line, now) == Reply(r, if AllBlank(line) then "" else "error=invalid request: missing '='\n")
  {
    hide Trim, HandleWatch, HandleAssignment, ErrorLine, IndexOf, AllBlank;
    SetErrors();
    BlankIff(line);
    TrimWithout(line, '=');
    IndexOfNone(Trim(line), '=');
  }

  lemma TrimWithout(line: string, c: char)
    requires c !in line
    ensures c !in Trim(line)
  {
    var left, right := TrimSplit(line);
    var l := Trim(line);
    assert forall i :: 0 <= i < |l| ==> l[i] == line[|left| + i];
  }

  lemma BlankIff(line: string)
    ensures |Trim(line)| == 0 <==> AllBlank(line)
  {
    hide Trim;
    var left, right := TrimSplit(line);
    if AllBlank(line) {
      TrimAround(line, "", "");
      assert line + "" + "" == line;
    } else {
      assert |Trim(line)| == 0 ==> line == left + right;
    }
  }

  // ---------------------------------------------------------------- watch entries

  /** One entry of a watch request, for a name that belongs to no field. */
  lemma OtherEntries(r: Registry, name: string, json: string, now: nat)
    requires |r.dirty| == FIELD_COUNT && '"' !in name && '.' !in name && ',' !in json && Trimmed(json)
    requires json == "true" || json == "false" || (|json| > 0 && 'a' <= json[0] <= 'z')
    ensures HandleLine(r, WatchText(name, json), now) ==
            Reply(r, if json == "false" then ""
                     else if name == "values" then "values={" + EntriesJson(0) + "}\n"
                     else if json == "true" then "error=invalid unknown value\n"
                     else "error=invalid watch period\n")
  {
    hide HandleLine, Trim, ParseReal, EntriesJson, WatchText, ErrorLine, Find, WatchField, LineOf;
    WatchErrors();
    WatchLineHandled(r, name, json, now);
    NoSuchField(name);
    TrimNothing(json);
    assert "" + ErrorLine(UNKNOWN_VALUE) == ErrorLine(UNKNOWN_VALUE);
    if json != "true" && json != "false" {
      NotANumber(json);
    }
  }

  /** A watch request without braces is refused. */
  lemma NoBraces(r: Registry, json: string, now: nat)
    requires |r.dirty| == FIELD_COUNT && Trimmed(json) && (|json| < 2 || json[0] != '{' || json[|json| - 1] != '}')
    ensures HandleLine(r, "watch=" + json + "\n", now) == Reply(r, "error=invalid watch request\n")
  {
    hide Trim, PerformAll, HandleAssignment, ErrorLine, IndexOf;
    WatchErrors();
    SplitLine("watch", json);
    assert "watch=" + json + "\n" == "watch" + "=" + json + "\n";
    TrimNothing(json);
  }

  // ---------------------------------------------------------------- value lines

  /** The line of a field: its name and an equals sign, then true or false, four decimals, or the
      text in quotes. */
  lemma ValueLines(m: Model, f: Field)
    ensures match Get(m, f)
            case None => LineOf(m, f) == Name(f) + "="
            case Some(BooleanValue(b)) => LineOf(m, f) == Name(f) + "=" + (if b then "true" else "false") + "\n"
            case Some(RealValue(x)) => LineOf(m, f) == Name(f) + "=" + FixedText(x, 4) + "\n"
            case Some(StringValue(s)) => LineOf(m, f) == Name(f) + "=\"" + EscapedQuotes(s) + "\"\n"
  {
    hide Get, Name, FixedText, EscapedQuotes;
  }

  /** Only the rudder angle can be unreadable, and only as long as it is not valid. */
  lemma UnreadableIff(m: Model, f: Field)
    ensures Get(m, f) == None <==> f == RudderAngle && !m.rudder.angleValid
  {}

  /** The port takes the whole part of a number that an unsigned 16-bit integer can hold. */
  lemma PortTruncates(x: real, n: nat)
    requires n as real <= x < (n + 1) as real && n < 0x1_0000
    ensures ToPort(x) == n
  {}

  /** The sizes of the tables. */
  lemma TableSizes(m: Model)
    ensures |Client.Created().watches| == 32 && |Client.Created().pending| == 16 && |Started(m).watches| == 64
  {
    hide Put;
  }

  /** A new server is running, with everything else as it was, and has two changed fields. */
  lemma NewServer(m: Model)
    ensures Started(m).model == m.(server := m.server.(running := true))
    ensures forall f: Field :: Started(m).dirty[Index(f)] <==> f == ServerRunning || f == ServerPort
    ensures WatchMap(Started(m).watches) == map[]
  {
    assert ToPort(m.server.port as real) == m.server.port;
    forall f: Field ensures FieldAt(Index(f)) == f {}
  }
}
