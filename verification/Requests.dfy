/** What the lines built by the client do when the server handles them. */
module Requests {
  import opened Client
  import opened ClientText
  import opened Decimal
  import opened Fields
  import opened NumberText
  import opened Search
  import opened Server
  import opened StringText
  import opened Text
  import opened Values
  import opened WatchRequest
  import opened Wrappers

  // ---------------------------------------------------------------- names and numbers

  predicate NameChar(c: char) {
    'a' <= c <= 'z' || c == '.' || c == '_'
  }

  predicate NameText(s: string) {
    forall i :: 0 <= i < |s| ==> NameChar(s[i])
  }

  lemma FirstNames(f: Field)
    requires Index(f) < 6
    ensures NameText(Name(f))
  {}

  lemma MiddleNames(f: Field)
    requires 6 <= Index(f) < 12
    ensures NameText(Name(f))
  {}

  lemma LastNames(f: Field)
    requires 12 <= Index(f)
    ensures NameText(Name(f))
  {}

  lemma NameLetters(f: Field)
    ensures NameText(Name(f))
  {
    hide NameText, Name;
    if Index(f) < 6 {
      FirstNames(f);
    } else if Index(f) < 12 {
      MiddleNames(f);
    } else {
      LastNames(f);
    }
  }

  lemma NamePoint(f: Field)
    ensures 7 <= |Name(f)| <= 18 && '.' in Name(f)
  {
    assert Name(f)[2] == '.' || Name(f)[5] == '.' || Name(f)[6] == '.';
  }

  /** Field names contain a point and no character that means something in a request. */
  lemma NameChars(f: Field)
    ensures '.' in Name(f) && '=' !in Name(f) && '"' !in Name(f) && '\0' !in Name(f) && '\n' !in Name(f)
    ensures Trimmed(Name(f)) && 7 <= |Name(f)| <= 18
  {
    hide Name;
    NameLetters(f);
    NamePoint(f);
  }

  predicate NumberChar(c: char) {
    IsDigit(c) || c == '.' || c == '-'
  }

  lemma RealTextChars(x: real)
    ensures |RealText(x)| > 0
    ensures forall i :: 0 <= i < |RealText(x)| ==> NumberChar(RealText(x)[i])
  {
    hide RealText, SentInteger, SentFraction;
    RealTextForm(x);
  }

  lemma NumberTrimmed(s: string)
    requires forall i :: 0 <= i < |s| ==> NumberChar(s[i])
    ensures Trimmed(s) && ',' !in s
    ensures |s| > 0 ==> s != "true" && s != "false"
  {}

  // ---------------------------------------------------------------- watch lines

  /** A watch line is a request with one entry. */
  lemma WatchLineHandled(r: Registry, name: string, json: string, now: nat)
    requires |r.dirty| == FIELD_COUNT
    requires '"' !in name && ',' !in json && Trimmed(json)
    ensures HandleLine(r, WatchText(name, json), now) == Perform(r, name, json, now).0
  {
    hide Perform, Trim, Execute, HandleAssignment, HandleWatch;
    var item := Item("", name, "", "", json, "");
    OneEntry(name, json);
    var e := "{" + Print([item], None) + "}";
    SplitLine("watch", e);
    assert WatchText(name, json) == "watch" + "=" + e + "\n";
    TrimNothing(e);
    PrintedRequest(r, [item], None, now);
    ExecuteOne(r, item, now);
  }

  lemma OneEntry(name: string, json: string)
    ensures Print([Item("", name, "", "", json, "")], None) == "\"" + name + "\":" + json
  {}

  lemma ExecuteOne(r: Registry, item: Item, now: nat)
    ensures Execute(r, [item], now) == Perform(r, item.key, item.value, now).0
  {
    hide Perform;
    var reply := Perform(r, item.key, item.value, now).0;
    assert [item][1..] == [];
    assert Execute(reply.reg, [], now) == Reply(reply.reg, "");
    assert reply.out + "" == reply.out;
  }

  /** How the server splits a line made of a name, an equals sign and a value. */
  lemma SplitLine(name: string, json: string)
    requires |name| > 0 && Trimmed(name) && '=' !in name
    ensures var l := Trim(name + "=" + json + "\n");
            && |l| > 0 && IndexOf(l, '=') == |name| < |l|
            && Trim(l[..|name|]) == name && Trim(l[|name| + 1..]) == Trim(json)
  {
    var rest := json + "\n";
    assert name + "=" + json + "\n" == name + "=" + rest;
    TrimPivot(name, '=', rest);
    TrimLeftNothing(name);
    var l := Trim(name + "=" + rest);
    assert l == name + "=" + TrimRight(rest);
    IndexOfSplit(name, '=', TrimRight(rest));
    assert l[..|name|] == name && l[|name| + 1..] == TrimRight(rest);
    TrimNothing(name);
    TrimOfTrimRight(rest);
    TrimRightIgnored(json, "\n");
  }

  lemma TrimLeftNothing(s: string)
    requires |s| > 0 && !IsBlank(s[0])
    ensures TrimLeft(s) == s
  {}

  /** The period that the server takes from a watch line. */
  function Asked(period: real): real {
    if period <= 0.0 then 0.0 else ArrivedReal(period)
  }

  /** It is the client's period, rounded to one microsecond, exactly when the number is printed
      intact. */
  lemma AskedExactIff(period: real)
    ensures Asked(period) == (if period <= 0.0 then 0.0 else Rounded(period, 6)) <==> period <= 0.0 || Intact(period)
  {
    hide ArrivedReal, Intact, Rounded;
    ArrivesExactIff(period);
  }

  /** A watch line sets the field's watch. */
  lemma WatchLineSets(r: Registry, f: Field, period: real, now: nat)
    requires |r.dirty| == FIELD_COUNT
    requires WatchField(r, f, Asked(period), now).1
    ensures LineFits(WatchLine(Name(f), period), MAX_LINE_SIZE)
    ensures HandleLine(r, WatchLine(Name(f), period), now).reg == WatchField(r, f, Asked(period), now).0
  {
    hide WatchField, Strtof, RealText, ArrivedReal, HandleLine, LineOf;
    var json := PeriodJson(period);
    NameChars(f);
    FindName(f);
    NotSpecialName(f);
    RealTextShort(period);
    PeriodJsonReads(period);
    WatchLineHandled(r, Name(f), json, now);
  }

  lemma PeriodJsonReads(period: real)
    ensures var json := PeriodJson(period);
            ',' !in json && Trimmed(json) && json != "false" && ParsePeriod(json) == Some(Asked(period)) && |json| < 32
  {
    hide Strtof, RealText, ArrivedReal;
    if period > 0.0 {
      var json := RealText(period);
      RealTextChars(period);
      NumberTrimmed(json);
      RealTextShort(period);
      TrimNothing(json);
      RealTextReads(period);
    }
  }

  lemma NotSpecialName(f: Field)
    ensures Name(f) != "values" && Name(f) != "watch" && Name(f) != "udp_port"
  {}

  /** An unwatch line drops the field's watch. */
  lemma UnwatchLineDrops(r: Registry, f: Field, now: nat)
    requires |r.dirty| == FIELD_COUNT
    ensures LineFits(WatchText(Name(f), "false"), MAX_LINE_SIZE)
    ensures HandleLine(r, WatchText(Name(f), "false"), now).reg == r.(watches := Dropped(r.watches, f))
  {
    hide HandleLine, Name, LineOf, ParsePeriod, WatchName, ValuesLine, Find, Dropped;
    NameChars(f);
    FindName(f);
    NotSpecialName(f);
    WatchLineHandled(r, Name(f), "false", now);
  }

  // ---------------------------------------------------------------- assignment lines

  lemma RecordHandled(r: Registry, f: Field, json: string, now: nat)
    requires |r.dirty| == FIELD_COUNT
    ensures HandleLine(r, RecordText(Name(f), json), now) == HandleAssignment(r, Name(f), Trim(json))
  {
    hide Trim, HandleAssignment, HandleWatch;
    NameChars(f);
    NotSpecialName(f);
    SplitLine(Name(f), json);
  }

  /** A boolean arrives as it was set. */
  lemma SetBoolArrives(r: Registry, f: Field, b: bool, now: nat)
    requires |r.dirty| == FIELD_COUNT && Writable(f) && KindOf(f) == BooleanKind
    ensures HandleLine(r, RecordText(Name(f), BoolText(b)), now) == Reply(SetField(r, f, BooleanValue(b)).0, "")
  {
    hide HandleLine, Put;
    RecordHandled(r, f, BoolText(b), now);
    TrimNothing(BoolText(b));
    FindName(f);
    PutGet(r.model, f, BooleanValue(b), f);
  }

  /** A number arrives as it was printed: by `ArrivesExactIff`, rounded to six decimals exactly
      when it is intact. */
  lemma SetRealArrives(r: Registry, f: Field, x: real, now: nat)
    requires |r.dirty| == FIELD_COUNT && Writable(f) && KindOf(f) == RealKind
    ensures HandleLine(r, RecordText(Name(f), RealText(x)), now) == Reply(SetField(r, f, RealValue(ArrivedReal(x))).0, "")
  {
    hide HandleLine, RealText, Strtof, ArrivedReal, Put;
    RecordHandled(r, f, RealText(x), now);
    RealTextChars(x);
    NumberTrimmed(RealText(x));
    TrimNothing(RealText(x));
    RealTextShort(x);
    RealTextReads(x);
    FindName(f);
    PutGet(r.model, f, RealValue(ArrivedReal(x)), f);
  }

  lemma SetStringArrives(r: Registry, f: Field, s: string, now: nat)
    requires |r.dirty| == FIELD_COUNT && Writable(f) && KindOf(f) == StringKind
    ensures HandleLine(r, RecordText(Name(f), Fit(Quoted(s), JSON_SIZE)), now) ==
            Reply(SetField(r, f, StringValue(ArrivedString(s))).0, "")
  {
    hide HandleLine, Quoted, Put;
    RecordHandled(r, f, Fit(Quoted(s), JSON_SIZE), now);
    FindName(f);
    PutGet(r.model, f, StringValue(ArrivedString(s)), f);
  }
}
