/** NMEA 0183 sentences: address and data fields, checksum, and the damage that it detects. */
module Nmea {
  import opened Bytes
  import opened Search
  import opened Wrappers

  type Text = seq<Byte>

  const DOLLAR: Byte := 0x24
  const STAR: Byte := 0x2a
  const COMMA: Byte := 0x2c
  const CR: Byte := 0x0d
  const LF: Byte := 0x0a

  datatype Sentence = Sentence(talker: Text, kind: Text, fields: seq<Text>, checksumOk: bool)

  const EMPTY_SENTENCE := Sentence([], [], [], false)

  // ---------------------------------------------------------------- checksum

  function Checksum(body: Text): Byte {
    if |body| == 0 then 0 else Checksum(body[..|body| - 1]) ^ body[|body| - 1]
  }

  method ComputeChecksum(body: Text) returns (checksum: Byte)
    ensures checksum == Checksum(body)
  {
    checksum := 0;
    for i := 0 to |body|
      invariant checksum == Checksum(body[..i])
    {
      assert body[..i + 1][..i] == body[..i];
      checksum := checksum ^ body[i];
    }
    assert body[..|body|] == body;
  }

  /** The value of a hexadecimal digit. */
  function HexValue(c: Byte): (v: Option<Byte>)
    ensures v.Some? ==> v.value < 16
  {
    if 0x30 <= c <= 0x39 then Some(c - 0x30)
    else if 0x41 <= c <= 0x46 then Some(c - 0x41 + 10)
    else if 0x61 <= c <= 0x66 then Some(c - 0x61 + 10)
    else None
  }

  function HexDigit(v: Byte, upper: bool): (c: Byte)
    requires v < 16
  {
    if v < 10 then 0x30 + v else if upper then 0x41 + (v - 10) else 0x61 + (v - 10)
  }

  lemma HexDigitReads(v: Byte, upper: bool)
    requires v < 16
    ensures HexValue(HexDigit(v, upper)) == Some(v)
  {}

  /** A hexadecimal digit is the printed form of its value, in one of the two cases. */
  lemma HexValueDigit(c: Byte)
    requires HexValue(c).Some?
    ensures exists upper :: c == HexDigit(HexValue(c).value, upper)
  {
    assert c == HexDigit(HexValue(c).value, true) || c == HexDigit(HexValue(c).value, false);
  }

  lemma HexIsPlain(c: Byte)
    requires HexValue(c).Some?
    ensures c != STAR && c != CR && c != LF
  {}

  // ---------------------------------------------------------------- fields

  function Split(body: Text): (parts: seq<Text>)
    ensures |parts| > 0
    decreases |body|
  {
    var comma := IndexOf(body, COMMA);
    if comma == |body| then [body] else [body[..comma]] + Split(body[comma + 1..])
  }

  method SplitFields(body: Text) returns (fields: seq<Text>)
    ensures fields == Split(body)
  {
    hide IndexOf;
    fields := [];
    var start := 0;
    while start <= |body|
      invariant start <= |body|
      invariant fields + Split(body[start..]) == Split(body)
      decreases |body| - start
    {
      var rest := body[start..];
      var comma := start + IndexOf(rest, COMMA);
      if comma == |body| {
        fields := fields + [rest];
        break;
      }
      assert rest[..comma - start] == body[start..comma] && rest[comma - start + 1..] == body[comma + 1..];
      ghost var tail := Split(body[comma + 1..]);
      assert fields + ([body[start..comma]] + tail) == fields + [body[start..comma]] + tail;
      fields := fields + [body[start..comma]];
      start := comma + 1;
    }
  }

  function Join(parts: seq<Text>): Text {
    if |parts| == 0 then [] else if |parts| == 1 then parts[0] else parts[0] + [COMMA] + Join(parts[1..])
  }

  /** Splitting loses nothing. */
  lemma {:induction false} JoinSplit(body: Text)
    ensures Join(Split(body)) == body
    decreases |body|
  {
    hide IndexOf;
    var comma := IndexOf(body, COMMA);
    if comma < |body| {
      var rest := Split(body[comma + 1..]);
      JoinSplit(body[comma + 1..]);
      assert ([body[..comma]] + rest)[1..] == rest;
    }
  }

  lemma {:induction false} SplitPieces(body: Text)
    ensures forall part :: part in Split(body) ==> COMMA !in part
    decreases |body|
  {
    var comma := IndexOf(body, COMMA);
    if comma < |body| {
      SplitPieces(body[comma + 1..]);
    }
  }

  lemma SplitFirst(head: Text, rest: Text)
    requires COMMA !in head
    ensures Split(head + [COMMA] + rest) == [head] + Split(rest)
  {
    hide IndexOf;
    var body := head + [COMMA] + rest;
    IndexOfSplit(head, COMMA, rest);
    assert body[..|head|] == head && body[|head| + 1..] == rest;
  }

  lemma SplitSingle(body: Text)
    requires COMMA !in body
    ensures Split(body) == [body]
  {
    hide IndexOf;
    IndexOfNone(body, COMMA);
  }

  /** Fields without commas come back one by one. */
  lemma {:induction false} SplitJoin(parts: seq<Text>)
    requires |parts| > 0 && forall part :: part in parts ==> COMMA !in part
    ensures Split(Join(parts)) == parts
    decreases |parts|
  {
    hide Split;
    assert COMMA !in parts[0];
    if |parts| == 1 {
      SplitSingle(parts[0]);
    } else {
      SplitJoin(parts[1..]);
      SplitFirst(parts[0], Join(parts[1..]));
    }
  }

  lemma {:induction false} JoinWithout(parts: seq<Text>, c: Byte)
    requires c != COMMA && forall part :: part in parts ==> c !in part
    ensures c !in Join(parts)
    decreases |parts|
  {
    if |parts| > 1 {
      JoinWithout(parts[1..], c);
    }
  }

  // ---------------------------------------------------------------- lines

  predicate LineEnd(c: Byte) {
    c == CR || c == LF
  }

  function StripEnd(line: Text): Text {
    if |line| > 0 && LineEnd(line[|line| - 1]) then StripEnd(line[..|line| - 1]) else line
  }

  lemma {:induction false} StripEndPrefix(line: Text, k: nat)
    requires k < |line| && !LineEnd(line[k])
    ensures k < |StripEnd(line)| <= |line| && StripEnd(line) == line[..|StripEnd(line)|]
    decreases |line|
  {
    if LineEnd(line[|line| - 1]) {
      StripEndPrefix(line[..|line| - 1], k);
    }
  }

  /** The byte that two hexadecimal digits stand for. */
  function HexByte(c: Byte, d: Byte): Option<Byte> {
    match (HexValue(c), HexValue(d))
    case (Some(high), Some(low)) => Some(FromHalves(high, low))
    case _ => None
  }

  /** The stripped line has two hexadecimal digits after its first star, and they are the
      checksum of what lies between the dollar sign and the star. */
  predicate ChecksumHolds(line: Text, star: nat)
    requires 0 < star <= |line|
  {
    star + 2 < |line| && HexByte(line[star + 1], line[star + 2]) == Some(Checksum(line[1..star]))
  }

  function ParseLine(line: Text): (Sentence, bool) {
    if |line| == 0 || line[0] != DOLLAR then (EMPTY_SENTENCE, false)
    else
      var l := Stripped(line);
      var star := IndexOf(l, STAR);
      var ok := ChecksumHolds(l, star);
      var parts := Split(l[1..star]);
      var header := parts[0];
      if |header| < 3 then (EMPTY_SENTENCE.(checksumOk := ok), false)
      else (Sentence(header[..|header| - 3], header[|header| - 3..], parts[1..], ok), true)
  }

  /** A line that starts with a dollar sign keeps it. */
  function Stripped(line: Text): (l: Text)
    requires |line| > 0 && line[0] == DOLLAR
    ensures |l| > 0 && l[0] == DOLLAR && l == StripEnd(line) && |l| <= |line| && l == line[..|l|]
    ensures IndexOf(l, STAR) > 0
  {
    StripEndPrefix(line, 0);
    StripEnd(line)
  }

  method Parse(input: Text) returns (sentence: Sentence, ok: bool)
    ensures (sentence, ok) == ParseLine(input)
  {
    hide Checksum, Split, HexValue;
    sentence := EMPTY_SENTENCE;
    if |input| == 0 || input[0] != DOLLAR {
      return sentence, false;
    }
    var line := input;
    while |line| > 0 && (line[|line| - 1] == CR || line[|line| - 1] == LF)
      invariant StripEnd(line) == StripEnd(input)
      decreases |line|
    {
      line := line[..|line| - 1];
    }
    assert line == Stripped(input);
    var star := IndexOf(line, STAR);
    var body := line[1..star];
    if star + 2 < |line| {
      var high, low := HexValue(line[star + 1]), HexValue(line[star + 2]);
      if high.Some? && low.Some? {
        var checksum := ComputeChecksum(body);
        sentence := sentence.(checksumOk := checksum == FromHalves(high.value, low.value));
      }
    }
    var parts := SplitFields(body);
    var header := parts[0];
    if |header| < 3 {
      return sentence, false;
    }
    sentence := sentence.(talker := header[..|header| - 3], kind := header[|header| - 3..], fields := parts[1..]);
    return sentence, true;
  }

  // ---------------------------------------------------------------- printing and parsing

  function Body(talker: Text, kind: Text, fields: seq<Text>): Text {
    Join([talker + kind] + fields)
  }

  /** A sentence with its checksum; each digit in either case. */
  function Printed(body: Text, upperHigh: bool, upperLow: bool): Text {
    var sum := Checksum(body);
    [DOLLAR] + body + [STAR] + [HexDigit(HighHalf(sum), upperHigh), HexDigit(LowHalf(sum), upperLow)]
  }

  lemma HexByteReads(b: Byte, upperHigh: bool, upperLow: bool)
    ensures HexByte(HexDigit(HighHalf(b), upperHigh), HexDigit(LowHalf(b), upperLow)) == Some(b)
  {}

  lemma HexByteDigits(c: Byte, d: Byte)
    requires HexByte(c, d).Some?
    ensures exists u, v :: c == HexDigit(HighHalf(HexByte(c, d).value), u) && d == HexDigit(LowHalf(HexByte(c, d).value), v)
  {
    hide HexValue, HexDigit, HighHalf, LowHalf, FromHalves;
    HexValueDigit(c);
    HexValueDigit(d);
    HalvesSplit(HexValue(c).value, HexValue(d).value);
  }

  /** Whatever follows a printed line, the stripped line still holds it and has its first star
      where the body ends. */
  lemma PrintedStripped(body: Text, upperHigh: bool, upperLow: bool, tail: Text)
    requires STAR !in body
    ensures var printed := Printed(body, upperHigh, upperLow);
            var l := StripEnd(printed + tail);
            && |printed| <= |l| <= |printed + tail| && l[..|printed|] == printed && l == (printed + tail)[..|l|]
            && IndexOf(l, STAR) == 1 + |body| && l[1..1 + |body|] == body
            && ChecksumHolds(l, 1 + |body|)
  {
    hide HexValue, HexDigit, HighHalf, LowHalf, Checksum, HexByte, IndexOf, StripEnd;
    var printed := Printed(body, upperHigh, upperLow);
    var sum := Checksum(body);
    var last := |printed| - 1;
    HexByteReads(sum, upperHigh, upperLow);
    HexDigitReads(LowHalf(sum), upperLow);
    HexIsPlain(printed[last]);
    assert (printed + tail)[last] == printed[last];
    StripEndPrefix(printed + tail, last);
    var l := StripEnd(printed + tail);
    assert l[..|printed|] == printed;
    assert forall k :: 0 <= k < |printed| ==> l[k] == printed[k];
    assert forall k :: 1 <= k < 1 + |body| ==> l[k] == body[k - 1];
    assert l[1..1 + |body|] == body;
    IndexOfIs(l, STAR, 1 + |body|);
  }

  /** What a sentence can be made of: a type of three bytes, and no commas or stars. */
  predicate GoodParts(s: Sentence) {
    && |s.kind| == 3 && COMMA !in s.talker + s.kind && STAR !in s.talker + s.kind
    && forall part :: part in s.fields ==> COMMA !in part && STAR !in part
  }

  /** Parsing a printed sentence, whatever follows it, returns its parts. */
  lemma ParsePrinted(s: Sentence, upperHigh: bool, upperLow: bool, tail: Text)
    requires GoodParts(s)
    ensures ParseLine(Printed(Body(s.talker, s.kind, s.fields), upperHigh, upperLow) + tail) ==
            (s.(checksumOk := true), true)
  {
    hide Checksum, HexDigit, HighHalf, LowHalf, Split, Join, ChecksumHolds, IndexOf, StripEnd;
    var parts := [s.talker + s.kind] + s.fields;
    var body := Join(parts);
    JoinWithout(parts, STAR);
    SplitJoin(parts);
    PrintedStripped(body, upperHigh, upperLow, tail);
    assert (Printed(body, upperHigh, upperLow) + tail)[0] == DOLLAR;
    assert parts[1..] == s.fields;
  }

  /** Every line that parses with a good checksum is a printed sentence, with something after
      it that the parser ignores. */
  lemma ParsedIsPrinted(line: Text) returns (upperHigh: bool, upperLow: bool, tail: Text)
    requires ParseLine(line).1 && ParseLine(line).0.checksumOk
    ensures var s := ParseLine(line).0;
            GoodParts(s) && line == Printed(Body(s.talker, s.kind, s.fields), upperHigh, upperLow) + tail
  {
    hide Checksum, HexDigit, HexValue, HexByte, HighHalf, LowHalf, Split, Join, IndexOf, StripEnd;
    var l := Stripped(line);
    var star := IndexOf(l, STAR);
    var body := l[1..star];
    var s := ParseLine(line).0;
    var parts := Split(body);
    JoinSplit(body);
    SplitPieces(body);
    SplitWithout(body, STAR);
    assert s.talker + s.kind == parts[0];
    assert [s.talker + s.kind] + s.fields == parts;
    HexByteDigits(l[star + 1], l[star + 2]);
    upperHigh, upperLow :| l[star + 1] == HexDigit(HighHalf(Checksum(body)), upperHigh) && l[star + 2] == HexDigit(LowHalf(Checksum(body)), upperLow);
    tail := line[star + 3..];
    assert line == [DOLLAR] + body + [STAR] + [l[star + 1], l[star + 2]] + tail;
  }

  lemma {:induction false} SplitWithout(body: Text, c: Byte)
    requires c !in body
    ensures forall part :: part in Split(body) ==> c !in part
    decreases |body|
  {
    hide IndexOf;
    var comma := IndexOf(body, COMMA);
    if comma < |body| {
      SplitWithout(body[comma + 1..], c);
    }
  }

  /** A line parses to a sentence with a good checksum exactly when it is a print of that
      sentence, made of good parts, followed by anything. */
  lemma ParsesIffPrinted(line: Text, s: Sentence)
    requires s.checksumOk
    ensures ParseLine(line) == (s, true) <==>
            GoodParts(s) && exists u, v, tail :: line == Printed(Body(s.talker, s.kind, s.fields), u, v) + tail
  {
    hide ParseLine, Printed, Body, GoodParts;
    var body := Body(s.talker, s.kind, s.fields);
    if ParseLine(line) == (s, true) {
      var u, v, tail := ParsedIsPrinted(line);
    }
    if GoodParts(s) && exists u, v, tail :: line == Printed(body, u, v) + tail {
      var u, v, tail :| line == Printed(body, u, v) + tail;
      ParsePrinted(s, u, v, tail);
    }
  }

  // ---------------------------------------------------------------- damage

  lemma {:induction false} ChecksumInjective(a: Text, b: Text, rest: Text)
    ensures Checksum(a + rest) == Checksum(b + rest) <==> Checksum(a) == Checksum(b)
    decreases |rest|
  {
    if |rest| == 0 {
      assert a + rest == a && b + rest == b;
    } else {
      var front, c := rest[..|rest| - 1], rest[|rest| - 1];
      ChecksumInjective(a, b, front);
      assert (a + rest)[..|a + rest| - 1] == a + front && (b + rest)[..|b + rest| - 1] == b + front;
      XorInjective(Checksum(a + front), Checksum(b + front), c);
    }
  }

  /** Replacing one byte by another changes the checksum. */
  lemma ReplacedChecksum(body: Text, i: nat, y: Byte)
    requires i < |body| && y != body[i]
    ensures Checksum(body[i := y]) != Checksum(body)
  {
    var a, rest := body[..i], body[i + 1..];
    assert body == a + [body[i]] + rest && body[i := y] == a + [y] + rest;
    ChecksumInjective(a + [body[i]], a + [y], rest);
    assert (a + [body[i]])[..i] == a && (a + [y])[..i] == a;
    XorInjective(body[i], y, Checksum(a));
  }

  /** Where the parser finds the star, and whether the checksum holds there, if the stripped
      line is known to reach past the digits. */
  lemma ChecksumOkAt(line: Text, star: nat)
    requires |line| > star + 2 && star > 0 && line[0] == DOLLAR
    requires line[star] == STAR && forall k :: 0 <= k < star ==> line[k] != STAR
    ensures ParseLine(line).0.checksumOk <==> HexByte(line[star + 1], line[star + 2]) == Some(Checksum(line[1..star]))
  {
    hide Checksum, HexValue, FromHalves, Split, IndexOf, StripEnd;
    var l := Stripped(line);
    StripEndPrefix(line, star);
    IndexOfIs(l, STAR, star);
    assert l[1..star] == line[1..star];
    if HexByte(line[star + 1], line[star + 2]).Some? {
      HexIsPlain(line[star + 2]);
      StripEndPrefix(line, star + 2);
    }
  }

  /** In a line whose checksum holds, two digits follow the first star. */
  lemma StarOf(line: Text, star: nat)
    requires ParseLine(line).0.checksumOk
    requires star < |line| && line[star] == STAR && forall k :: 0 <= k < star ==> line[k] != STAR
    ensures 0 < star && star + 2 < |line| && line[0] == DOLLAR
  {}

  /** One byte of the body of a good line is replaced by another: the checksum fails, except
      when the new byte is a star that happens to be followed by the checksum of what is before
      it. */
  lemma OneByteReplacedIff(line: Text, star: nat, i: nat, y: Byte)
    requires ParseLine(line).0.checksumOk
    requires 0 < i < star < |line| && line[star] == STAR && y != line[i]
    requires forall k :: 0 <= k < star ==> line[k] != STAR
    ensures star + 2 < |line|
    ensures ParseLine(line[i := y]).0.checksumOk <==>
            y == STAR && HexByte(line[i + 1], line[i + 2]) == Some(Checksum(line[1..i]))
  {
    hide ParseLine, Checksum, HexByte;
    StarOf(line, star);
    var line' := line[i := y];
    if y == STAR {
      ChecksumOkAt(line', i);
      assert line'[1..i] == line[1..i];
    } else {
      ChecksumOkAt(line, star);
      ChecksumOkAt(line', star);
      assert line'[1..star] == line[1..star][i - 1 := y];
      ReplacedChecksum(line[1..star], i - 1, y);
    }
  }

  /** A printed line has a good checksum. */
  lemma PrintedGood(body: Text, upper: bool)
    requires forall k :: 0 <= k < |body| ==> body[k] != STAR
    ensures var line := Printed(body, upper, upper);
            && |line| == |body| + 4 && line[1 + |body|] == STAR && ParseLine(line).0.checksumOk
            && forall k :: 0 <= k < 1 + |body| ==> line[k] != STAR
  {
    hide ParseLine, Checksum, HexDigit, HighHalf, LowHalf, HexByte;
    var line := Printed(body, upper, upper);
    assert forall k :: 1 <= k < 1 + |body| ==> line[k] == body[k - 1];
    assert line[1..1 + |body|] == body;
    HexByteReads(Checksum(body), upper, upper);
    ChecksumOkAt(line, 1 + |body|);
  }

  /** A text, a comma, and two digits. */
  function Forged(text: Text, c: Byte, d: Byte): (body: Text)
    ensures |body| == |text| + 3 && body[..|text|] == text
    ensures body[|text|] == COMMA && body[|text| + 1] == c && body[|text| + 2] == d
  {
    text + [COMMA] + [c, d]
  }

  /** The exception is real: after any text, a comma and the checksum of that text can stand in
      the body of a good line, and a star in place of the comma is not noticed. */
  lemma StarUnnoticed(text: Text, upper: bool)
    requires forall k :: 0 <= k < |text| ==> text[k] != STAR
    ensures var sum := Checksum(text);
            var body := Forged(text, HexDigit(HighHalf(sum), upper), HexDigit(LowHalf(sum), upper));
            var line := Printed(body, upper, upper);
            && ParseLine(line).0.checksumOk
            && ParseLine(line[1 + |text| := STAR]).0.checksumOk
  {
    hide ParseLine, Printed, Checksum, HexDigit, HighHalf, LowHalf, HexByte, Forged;
    var sum := Checksum(text);
    var c, d := HexDigit(HighHalf(sum), upper), HexDigit(LowHalf(sum), upper);
    var body := Forged(text, c, d);
    HexByteReads(sum, upper, upper);
    DigitIsPlain(HighHalf(sum), upper);
    DigitIsPlain(LowHalf(sum), upper);
    ForgedNoStar(text, c, d);
    PrintedGood(body, upper);
    ForgedInLine(text, c, d, upper);
    OneByteReplacedIff(Printed(body, upper, upper), 1 + |body|, 1 + |text|, STAR);
  }

  lemma DigitIsPlain(v: Byte, upper: bool)
    requires v < 16
    ensures HexDigit(v, upper) != STAR
  {}

  lemma ForgedNoStar(text: Text, c: Byte, d: Byte)
    requires c != STAR && d != STAR && forall k :: 0 <= k < |text| ==> text[k] != STAR
    ensures forall k :: 0 <= k < |Forged(text, c, d)| ==> Forged(text, c, d)[k] != STAR
  {}

  lemma ForgedInLine(text: Text, c: Byte, d: Byte, upper: bool)
    ensures var i, line := 1 + |text|, Printed(Forged(text, c, d), upper, upper);
            |line| == i + 6 && line[1..i] == text && line[i] == COMMA && line[i + 1] == c && line[i + 2] == d
  {}
}
