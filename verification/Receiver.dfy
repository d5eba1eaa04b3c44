/** The client's side of the return stream: lines that set the client's own copy of a field. */
module Receiver {
  import opened Decimal
  import opened Fields
  import opened Search
  import opened Text
  import opened Values
  import opened Wrappers

  datatype Record = Record(name: string, json: string)

  function ParseRecord(line: string): Option<Record> {
    var l := Trim(line);
    var eq := IndexOf(l, '=');
    if |l| == 0 || eq == |l| || eq == 0 then None
    else
      var name := Trim(l[..eq]);
      if name == "" then None else Some(Record(name, Trim(l[eq + 1..])))
  }

  function Deliver(r: Registry, line: string): (r': Registry)
    requires |r.dirty| == FIELD_COUNT
    ensures |r'.dirty| == FIELD_COUNT
  {
    match ParseRecord(line)
    case None => r
    case Some(record) => if record.name == "values" then r else SetFromWire(r, record.name, record.json, false).0
  }

  function DeliverAll(r: Registry, lines: seq<string>): (r': Registry)
    requires |r.dirty| == FIELD_COUNT
    ensures |r'.dirty| == FIELD_COUNT
    decreases |lines|
  {
    if |lines| == 0 then r else DeliverAll(Deliver(r, lines[0]), lines[1..])
  }

  class ClientReceiver {
    const values: ValueRegistry

    constructor (values: ValueRegistry)
      ensures this.values == values
    {
      this.values := values;
    }

    method HandleLine(input: string)
      requires values.Valid()
      modifies values.state, values.dirty
      ensures values.View() == Deliver(old(values.View()), input)
    {
      hide SetFromWire;
      var line := TrimView(input);
      var eq := IndexOf(line, '=');
      if |line| == 0 || eq == |line| || eq == 0 {
        return;
      }
      var name := TrimView(line[..eq]);
      var json := TrimView(line[eq + 1..]);
      if name == "" || name == "values" {
        return;
      }
      var _ := values.SetWire(name, json, false);
    }
  }

  // ---------------------------------------------------------------- copies of values

  /** The copy that a value line leaves on the other side. */
  function Mirrored(v: Value): Value {
    match v
    case RealValue(x) => RealValue(Rounded(x, 4))
    case BooleanValue(b) => v
    case StringValue(s) => StringValue(EscapedQuotes(s))
  }

  predicate NeedsEscape(c: char) {
    c == '"' || c == '\\'
  }

  predicate NoEscapes(s: string) {
    forall i :: 0 <= i < |s| ==> !NeedsEscape(s[i])
  }

  lemma {:induction false} EscapedQuotesLength(s: string)
    ensures |EscapedQuotes(s)| >= |s| && (|EscapedQuotes(s)| == |s| ==> NoEscapes(s))
    ensures '\n' !in s ==> '\n' !in EscapedQuotes(s)
    decreases |s|
  {
    if |s| > 0 {
      EscapedQuotesLength(s[..|s| - 1]);
    }
  }

  lemma {:induction false} NoEscapesSame(s: string)
    requires NoEscapes(s)
    ensures EscapedQuotes(s) == s
    decreases |s|
  {
    if |s| > 0 {
      NoEscapesSame(s[..|s| - 1]);
      assert s == s[..|s| - 1] + [s[|s| - 1]];
    }
  }

  lemma EscapedQuotesIff(s: string)
    ensures |EscapedQuotes(s)| >= |s|
    ensures EscapedQuotes(s) == s <==> NoEscapes(s)
    ensures '\n' !in s ==> '\n' !in EscapedQuotes(s)
  {
    hide EscapedQuotes, NoEscapes;
    EscapedQuotesLength(s);
    if NoEscapes(s) {
      NoEscapesSame(s);
    }
  }

  /** A number is short enough for the receiver's buffer. */
  predicate Legible(v: Value) {
    v.RealValue? ==> |FixedText(v.number, 4)| <= 31
  }

  /** The line of a value, without its end. */
  function ValueLine(f: Field, v: Value): string {
    Name(f) + "=" + ValueText(v)
  }

  lemma ValueTextTrimmed(v: Value)
    ensures Trimmed(ValueText(v)) && |ValueText(v)| > 0
  {}

  lemma ParsedBack(v: Value, k: Kind)
    requires HasKind(v, k) && Legible(v)
    ensures ParseValue(ValueText(v), k) == Some(Mirrored(v))
  {
    hide EscapedQuotes, FixedText, Strtof;
    match v
    case RealValue(x) => StrtofFixedText(x, 4);
    case BooleanValue(b) =>
    case StringValue(s) =>
      var t := ValueText(v);
      assert t[1..|t| - 1] == EscapedQuotes(s);
  }

  lemma RecordOfLine(name: string, json: string)
    requires |name| > 0 && Trimmed(name) && '=' !in name && |json| > 0 && Trimmed(json)
    ensures ParseRecord(name + "=" + json) == Some(Record(name, json))
  {
    var line := name + "=" + json;
    TrimNothing(line);
    IndexOfSplit(name, '=', json);
    assert line[..|name|] == name && line[|name| + 1..] == json;
    TrimNothing(name);
    TrimNothing(json);
  }
}
