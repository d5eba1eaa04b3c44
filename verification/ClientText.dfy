/** How the client builds its request lines in fixed-size character buffers. */
module ClientText {
  import opened Decimal
  import opened Search
  import opened Text
  import opened Wrappers

  const MAX_LINE_SIZE := 192
  const NUMBER_SIZE := 32
  const JSON_SIZE := 128

  // ---------------------------------------------------------------- bounded appending

  /** What a buffer of size `cap` holds of a text: a terminator always fits too. */
  function Fit(text: string, cap: nat): (t: string)
    requires cap > 0
    ensures |t| < cap
  {
    if |text| < cap then text else text[..cap - 1]
  }

  /** `out` holds a terminated text of length `pos`. */
  ghost predicate Holds(out: array<char>, pos: nat, text: string)
    reads out
  {
    pos == |text| && pos < out.Length && out[..pos] == text && out[pos] == '\0'
  }

  /** Appends as much as fits and terminates; nothing outside the buffer is written. */
  method AppendRaw(out: array<char>, pos: nat, s: string) returns (end: nat)
    requires pos < out.Length
    modifies out
    ensures Holds(out, end, Fit(old(out[..pos]) + s, out.Length))
  {
    ghost var before := out[..pos];
    end := pos;
    var i := 0;
    while i < |s| && end + 1 < out.Length
      invariant 0 <= i <= |s| && end == pos + i < out.Length
      invariant out[..end] == before + s[..i]
    {
      out[end] := s[i];
      end := end + 1;
      i := i + 1;
      assert out[..end] == before + s[..i - 1] + [s[i - 1]];
    }
    out[end] := '\0';
    assert i == |s| ==> s[..i] == s;
    assert i < |s| ==> (before + s)[..out.Length - 1] == before + s[..i];
  }

  /** Appending piece by piece is appending all at once. */
  lemma FitAppend(text: string, s: string, cap: nat)
    requires cap > 0
    ensures Fit(Fit(text, cap) + s, cap) == Fit(text + s, cap)
  {}

  /** A further piece of a chain. */
  method AppendNext(out: array<char>, pos: nat, s: string, ghost text: string) returns (end: nat)
    requires out.Length > 0 && Holds(out, pos, Fit(text, out.Length))
    modifies out
    ensures Holds(out, end, Fit(text + s, out.Length))
  {
    end := AppendRaw(out, pos, s);
    FitAppend(text, s, out.Length);
  }

  // ---------------------------------------------------------------- records and watches

  function RecordText(name: string, json: string): string {
    name + "=" + json + "\n"
  }

  function WatchText(name: string, json: string): string {
    "watch={\"" + name + "\":" + json + "}\n"
  }

  /** A request line is made only if its whole text leaves a byte to spare. */
  predicate LineFits(text: string, cap: nat) {
    |text| + 2 <= cap
  }

  lemma FitsWhole(text: string, cap: nat)
    requires cap > 0
    ensures |Fit(text, cap)| + 1 < cap <==> LineFits(text, cap)
    ensures LineFits(text, cap) ==> Fit(text, cap) == text
  {}

  method MakeRecordRaw(out: array<char>, name: string, json: string) returns (ok: bool)
    requires out.Length > 0
    modifies out
    ensures ok <==> LineFits(RecordText(name, json), out.Length)
    ensures ok ==> Holds(out, |RecordText(name, json)|, RecordText(name, json))
  {
    var pos := AppendRaw(out, 0, name);
    assert old(out[..0]) + name == name;
    pos := AppendNext(out, pos, "=", name);
    pos := AppendNext(out, pos, json, name + "=");
    pos := AppendNext(out, pos, "\n", name + "=" + json);
    FitsWhole(RecordText(name, json), out.Length);
    return pos > 0 && pos + 1 < out.Length;
  }

  method MakeWatch(out: array<char>, name: string, json: string) returns (ok: bool)
    requires out.Length > 0
    modifies out
    ensures ok <==> LineFits(WatchText(name, json), out.Length)
    ensures ok ==> Holds(out, |WatchText(name, json)|, WatchText(name, json))
  {
    var pos := AppendRaw(out, 0, "watch={\"");
    assert old(out[..0]) + "watch={\"" == "watch={\"";
    pos := AppendNext(out, pos, name, "watch={\"");
    pos := AppendNext(out, pos, "\":", "watch={\"" + name);
    pos := AppendNext(out, pos, json, "watch={\"" + name + "\":");
    pos := AppendNext(out, pos, "}\n", "watch={\"" + name + "\":" + json);
    FitsWhole(WatchText(name, json), out.Length);
    return pos > 0 && pos + 1 < out.Length;
  }

  // ---------------------------------------------------------------- numbers

  function DropSpaces(s: string): string {
    if |s| > 0 && s[0] == ' ' then DropSpaces(s[1..]) else s
  }

  function DropZeros(s: string): (t: string)
    ensures t <= s
    ensures |t| > 0 ==> t[|t| - 1] != '0'
  {
    if |s| > 0 && s[|s| - 1] == '0' then DropZeros(s[..|s| - 1]) else s
  }

  function DropPoint(s: string): string {
    if |s| > 0 && s[|s| - 1] == '.' then s[..|s| - 1] else s
  }

  function TrimTail(s: string): string {
    var v := DropPoint(DropZeros(s));
    if v == "" || v == "-" then v + "0" else v
  }

  function TrimNumber(s: string): string {
    TrimTail(DropSpaces(s))
  }

  /** The text up to the first terminator. */
  function CString(buffer: seq<char>): string {
    buffer[..IndexOf(buffer, '\0')]
  }

  lemma CStringIs(buffer: seq<char>, text: string)
    requires '\0' !in text && |text| < |buffer| && buffer[..|text|] == text && buffer[|text|] == '\0'
    ensures CString(buffer) == text
  {}

  /** Shifts leading spaces out, then cuts trailing zeros and a bare point.  The buffer must
      have room for the shortest result, "-0". */
  method TrimNumberInPlace(s: array<char>)
    requires '\0' in s[..] && s.Length > 2
    modifies s
    ensures '\0' in s[..] && CString(s[..]) == TrimNumber(old(CString(s[..])))
  {
    ghost var text := CString(s[..]);
    var len := IndexOf(s[..], '\0');
    var first := CountSpaces(s, len);
    MoveDown(s, first, len);
    CutTail(s, len - first, DropSpaces(text));
  }

  method CountSpaces(s: array<char>, len: nat) returns (first: nat)
    requires len < s.Length && s[len] == '\0'
    ensures first <= len && s[first..len] == DropSpaces(s[..len])
  {
    first := 0;
    while s[first] == ' '
      invariant 0 <= first <= len
      invariant DropSpaces(s[first..len]) == DropSpaces(s[..len])
      decreases len - first
    {
      assert s[first..len][1..] == s[first + 1..len];
      first := first + 1;
    }
  }

  method EndOfZeros(s: array<char>, len: nat, ghost body: string) returns (end: nat)
    requires len < s.Length && s[..len] == body
    ensures end <= len && s[..end] == DropZeros(body)
  {
    end := len;
    while end > 0 && s[end - 1] == '0'
      invariant 0 <= end <= len && s[..end] == body[..end]
      invariant DropZeros(body[..end]) == DropZeros(body)
    {
      assert body[..end][..end - 1] == body[..end - 1];
      end := end - 1;
    }
  }

  method CutTail(s: array<char>, len: nat, ghost body: string)
    requires s.Length > 2 && len < s.Length && s[..len] == body && '\0' !in body
    modifies s
    ensures '\0' in s[..]
    ensures CString(s[..]) == TrimTail(body)
  {
    hide CString, DropZeros;
    var end := EndOfZeros(s, len, body);
    if end > 0 && s[end - 1] == '.' {
      end := end - 1;
    }
    ghost var v := s[..end];
    assert v == DropPoint(DropZeros(body));
    if end == 0 || (end == 1 && s[0] == '-') {
      s[end] := '0';
      end := end + 1;
      assert s[..end] == v + "0";
    }
    s[end] := '\0';
    CStringIs(s[..], s[..end]);
  }

  /** The overlapping move of a terminated text to the front of its buffer. */
  method MoveDown(s: array<char>, first: nat, len: nat)
    requires first <= len < s.Length
    modifies s
    ensures s[..len - first] == old(s[first..len]) && s[len - first] == old(s[len])
  {
    forall k | 0 <= k <= len - first {
      s[k] := s[first + k];
    }
  }

  /** The number text that goes on the wire. */
  function RealText(x: real): string {
    TrimNumber(Fit(FixedText(x, 6), NUMBER_SIZE))
  }

  lemma RealTextShort(x: real)
    ensures 0 < |RealText(x)| < NUMBER_SIZE
  {}

  lemma FixedTextNoTerminator(x: real, places: nat)
    ensures '\0' !in FixedText(x, places)
  {}

  method AppendReal(out: array<char>, pos: nat, x: real, ghost text: string) returns (end: nat)
    requires out.Length > 0 && Holds(out, pos, Fit(text, out.Length))
    modifies out
    ensures Holds(out, end, Fit(text + RealText(x), out.Length))
  {
    var number := PrintNumber(x);
    TrimNumberInPlace(number);
    end := AppendNext(out, pos, CString(number[..]), text);
  }

  /** `snprintf` with "%.6f" into a buffer of 32 characters. */
  method PrintNumber(x: real) returns (number: array<char>)
    ensures fresh(number) && number.Length == NUMBER_SIZE
    ensures '\0' in number[..] && CString(number[..]) == Fit(FixedText(x, 6), NUMBER_SIZE)
  {
    var text := Fit(FixedText(x, 6), NUMBER_SIZE);
    FixedTextNoTerminator(x, 6);
    number := new char[NUMBER_SIZE](i => '\0');
    forall i | 0 <= i < |text| {
      number[i] := text[i];
    }
    assert number[..][..|text|] == text;
    CStringIs(number[..], text);
  }

  /** The period of a watch request; a period that is not positive asks for every change. */
  function PeriodJson(period: real): string {
    if period <= 0.0 then "true" else RealText(period)
  }

  method MakeWatchPeriod(out: array<char>, name: string, period: real) returns (ok: bool)
    requires out.Length > 0
    modifies out
    ensures ok <==> LineFits(WatchText(name, PeriodJson(period)), out.Length)
    ensures ok ==> var text := WatchText(name, PeriodJson(period)); Holds(out, |text|, text)
  {
    if period <= 0.0 {
      ok := MakeWatch(out, name, "true");
      return;
    }
    var json := new char[NUMBER_SIZE](i => '\0');
    assert json[..0] == Fit("", json.Length);
    var end := AppendReal(json, 0, period, "");
    RealTextShort(period);
    assert "" + RealText(period) == RealText(period);
    ok := MakeWatch(out, name, json[..end]);
  }

  // ---------------------------------------------------------------- strings

  function EscapedChar(c: char): string {
    if c == '"' || c == '\\' then "\\" + [c]
    else if c == '\n' then "\\n"
    else if c == '\r' then "\\r"
    else if c == '\t' then "\\t"
    else [c]
  }

  function Escaped(s: string): string {
    if |s| == 0 then "" else Escaped(s[..|s| - 1]) + EscapedChar(s[|s| - 1])
  }

  function Quoted(s: string): string {
    "\"" + Escaped(s) + "\""
  }

  method AppendEscaped(out: array<char>, pos: nat, c: char, ghost text: string) returns (end: nat)
    requires out.Length > 0 && Holds(out, pos, Fit(text, out.Length))
    modifies out
    ensures Holds(out, end, Fit(text + EscapedChar(c), out.Length))
  {
    if c == '\n' {
      end := AppendNext(out, pos, "\\n", text);
    } else if c == '\r' {
      end := AppendNext(out, pos, "\\r", text);
    } else if c == '\t' {
      end := AppendNext(out, pos, "\\t", text);
    } else if c == '"' || c == '\\' {
      end := AppendNext(out, pos, "\\", text);
      end := AppendNext(out, end, [c], text + "\\");
      assert text + "\\" + [c] == text + EscapedChar(c);
    } else {
      end := AppendNext(out, pos, [c], text);
    }
  }

  method AppendJsonString(out: array<char>, pos: nat, s: string, ghost text: string) returns (end: nat)
    requires out.Length > 0 && Holds(out, pos, Fit(text, out.Length))
    modifies out
    ensures Holds(out, end, Fit(text + Quoted(s), out.Length))
  {
    hide Fit, EscapedChar;
    end := AppendNext(out, pos, "\"", text);
    ghost var head := text + "\"";
    assert head + Escaped(s[..0]) == head;
    for i := 0 to |s|
      invariant Holds(out, end, Fit(head + Escaped(s[..i]), out.Length))
    {
      end := AppendEscaped(out, end, s[i], head + Escaped(s[..i]));
      assert s[..i + 1][..i] == s[..i];
      assert head + Escaped(s[..i + 1]) == head + Escaped(s[..i]) + EscapedChar(s[i]);
    }
    assert s[..|s|] == s;
    end := AppendNext(out, end, "\"", head + Escaped(s));
    assert head + Escaped(s) + "\"" == text + Quoted(s);
  }

  /** Characters that come back changed, because nothing on the other side undoes the escapes. */
  predicate Special(c: char) {
    c == '"' || c == '\\' || c == '\n' || c == '\r' || c == '\t'
  }

  predicate Plain(s: string) {
    forall i :: 0 <= i < |s| ==> !Special(s[i])
  }

  lemma EscapedCharLength(c: char)
    ensures |EscapedChar(c)| >= 1 && (|EscapedChar(c)| == 1 ==> !Special(c))
  {}

  lemma {:induction false} EscapedLength(s: string)
    ensures |Escaped(s)| >= |s| && (|Escaped(s)| == |s| ==> Plain(s))
    decreases |s|
  {
    hide EscapedChar, Special;
    if |s| > 0 {
      EscapedLength(s[..|s| - 1]);
      EscapedCharLength(s[|s| - 1]);
    }
  }

  lemma {:induction false} PlainEscaped(s: string)
    requires Plain(s)
    ensures Escaped(s) == s
    decreases |s|
  {
    if |s| > 0 {
      PlainEscaped(s[..|s| - 1]);
      assert s == s[..|s| - 1] + [s[|s| - 1]];
    }
  }

  lemma EscapedPlain(s: string)
    ensures |Escaped(s)| >= |s|
    ensures Escaped(s) == s <==> Plain(s)
    ensures |Escaped(s)| == |s| ==> Plain(s)
  {
    hide Escaped, Plain;
    EscapedLength(s);
    if Plain(s) {
      PlainEscaped(s);
    }
  }
}
