/** What the sentence parser does with any line, checksum or not, in plain terms. */
module NmeaLines {
  import opened Bytes
  import opened Nmea
  import opened Search
  import opened Wrappers

  // ---------------------------------------------------------------- the checksum

  /** Whether an odd number of bytes have a bit set. */
  function OddlyMany(body: Text, mask: Byte): bool {
    |body| > 0 && (OddlyMany(body[..|body| - 1], mask) != Has(body[|body| - 1], mask))
  }

  /** Each bit of the checksum is the parity of that bit in the body. */
  lemma {:induction false} ChecksumIsParity(body: Text, mask: Byte)
    requires mask in [0x80, 0x40, 0x20, 0x10, 0x08, 0x04, 0x02, 0x01]
    ensures Has(Checksum(body), mask) <==> OddlyMany(body, mask)
    decreases |body|
  {
    hide Has;
    if |body| == 0 {
      NoBits(mask);
    } else {
      ChecksumIsParity(body[..|body| - 1], mask);
      XorMask(Checksum(body[..|body| - 1]), body[|body| - 1], mask);
    }
  }

  lemma NoBits(mask: Byte)
    ensures !Has(0, mask)
  {}

  /** The values of the hexadecimal digits. */
  lemma DecimalDigits()
    ensures HexValue(0x30) == Some(0) && HexValue(0x31) == Some(1) && HexValue(0x32) == Some(2) && HexValue(0x33) == Some(3)
    ensures HexValue(0x34) == Some(4) && HexValue(0x35) == Some(5) && HexValue(0x36) == Some(6) && HexValue(0x37) == Some(7)
    ensures HexValue(0x38) == Some(8) && HexValue(0x39) == Some(9)
  {}

  lemma LetterDigits()
    ensures HexValue(0x41) == Some(10) && HexValue(0x42) == Some(11) && HexValue(0x43) == Some(12)
    ensures HexValue(0x44) == Some(13) && HexValue(0x45) == Some(14) && HexValue(0x46) == Some(15)
    ensures HexValue(0x61) == Some(10) && HexValue(0x62) == Some(11) && HexValue(0x63) == Some(12)
    ensures HexValue(0x64) == Some(13) && HexValue(0x65) == Some(14) && HexValue(0x66) == Some(15)
  {}

  // ---------------------------------------------------------------- any line

  /** The first `n` bytes are the line without the CR and LF at its end. */
  predicate EndsAt(line: Text, n: nat) {
    && n <= |line|
    && (forall k :: n <= k < |line| ==> line[k] == 0x0d || line[k] == 0x0a)
    && (n > 0 ==> line[n - 1] != 0x0d && line[n - 1] != 0x0a)
  }

  /** The first byte `c` of the text is at `i`, or there is none and `i` is the length. */
  predicate FirstAt(s: Text, c: Byte, i: nat) {
    && i <= |s|
    && (i < |s| ==> s[i] == c)
    && forall k :: 0 <= k < i ==> s[k] != c
  }

  lemma {:induction false} StripEndIs(line: Text, n: nat)
    requires EndsAt(line, n)
    ensures StripEnd(line) == line[..n]
    decreases |line|
  {
    if n < |line| {
      StripEndIs(line[..|line| - 1], n);
      assert line[..|line| - 1][..n] == line[..n];
    } else {
      assert line[..n] == line;
    }
  }

  lemma IndexOfFirst(s: Text, c: Byte, i: nat)
    requires FirstAt(s, c, i)
    ensures IndexOf(s, c) == i
  {
    hide IndexOf;
    if i < |s| {
      IndexOfIs(s, c, i);
    } else {
      IndexOfNone(s, c);
    }
  }

  /** Every line that starts with a dollar sign, whatever its checksum: let the body be what lies
      between the dollar sign and the first star, or the end of the line without CR and LF.  The
      line parses exactly when the body has three bytes before its first comma.  Then these bytes
      are the talker and a type of three bytes, and the fields are what the commas separate.  The
      flag is set exactly when two hexadecimal digits of the checksum follow the star. */
  lemma ParsesAny(line: Text, n: nat, star: nat, comma: nat)
    requires |line| > 0 && line[0] == 0x24 && EndsAt(line, n) && FirstAt(line[..n], 0x2a, star)
    requires FirstAt(line[1..star], 0x2c, comma)
    ensures var (s, ok) := ParseLine(line);
            var body := line[1..star];
            && (ok <==> comma >= 3)
            && (ok ==> |s.kind| == 3 && s.talker + s.kind == body[..comma]
                       && Join([body[..comma]] + s.fields) == body && forall part :: part in s.fields ==> COMMA !in part)
            && (!ok ==> s.talker == [] && s.kind == [] && s.fields == [])
            && (s.checksumOk <==> star + 2 < n && HexByte(line[star + 1], line[star + 2]) == Some(Checksum(body)))
  {
    hide Checksum, HexByte, IndexOf, StripEnd, Join, Split;
    StripEndIs(line, n);
    IndexOfFirst(line[..n], STAR, star);
    var body := line[1..star];
    assert line[..n][1..star] == body;
    FirstPart(body, comma);
    JoinSplit(body);
    SplitPieces(body);
    assert [body[..comma]] + Split(body)[1..] == Split(body);
  }

  /** The first part of a text is what precedes its first comma. */
  lemma FirstPart(body: Text, comma: nat)
    requires FirstAt(body, COMMA, comma)
    ensures Split(body)[0] == body[..comma]
  {
    hide IndexOf;
    IndexOfFirst(body, COMMA, comma);
    assert comma == |body| ==> body[..comma] == body;
  }

  lemma NoDollar(line: Text)
    requires |line| == 0 || line[0] != 0x24
    ensures ParseLine(line) == (Sentence([], [], [], false), false)
  {}

  // ---------------------------------------------------------------- one known sentence

  lemma NextSum(data: Text, b: Byte, before: Byte)
    requires Checksum(data) == before
    ensures Checksum(data + [b]) == before ^ b
  {
    assert (data + [b])[..|data|] == data;
  }

  const HEADING_BODY: Text := [0x47, 0x50, 0x48, 0x44, 0x54, 0x2c, 0x32, 0x37, 0x34, 0x2e, 0x30, 0x37, 0x2c, 0x54]

  lemma HeadingSum()
    ensures Checksum(HEADING_BODY) == 0x03
  {
    hide Checksum;
    NoSum();
    var d0: Text := [];
    var d1 := d0 + [0x47];
    NextSum(d0, 0x47, 0x00);
    var d2 := d1 + [0x50];
    NextSum(d1, 0x50, 0x47);
    var d3 := d2 + [0x48];
    NextSum(d2, 0x48, 0x17);
    var d4 := d3 + [0x44];
    NextSum(d3, 0x44, 0x5f);
    var d5 := d4 + [0x54];
    NextSum(d4, 0x54, 0x1b);
    var d6 := d5 + [0x2c];
    NextSum(d5, 0x2c, 0x4f);
    var d7 := d6 + [0x32];
    NextSum(d6, 0x32, 0x63);
    var d8 := d7 + [0x37];
    NextSum(d7, 0x37, 0x51);
    var d9 := d8 + [0x34];
    NextSum(d8, 0x34, 0x66);
    var d10 := d9 + [0x2e];
    NextSum(d9, 0x2e, 0x52);
    var d11 := d10 + [0x30];
    NextSum(d10, 0x30, 0x7c);
    var d12 := d11 + [0x37];
    NextSum(d11, 0x37, 0x4c);
    var d13 := d12 + [0x2c];
    NextSum(d12, 0x2c, 0x7b);
    var d14 := d13 + [0x54];
    NextSum(d13, 0x54, 0x57);
    assert d14 == HEADING_BODY;
  }

  lemma NoSum()
    ensures Checksum([]) == 0
  {}

  /** The sentence $GPHDT,274.07,T*03 with CR and LF: talker GP, type HDT, two fields, and a good
      checksum. */
  lemma HeadingSentence(line: Text)
    requires line == [0x24] + HEADING_BODY + [0x2a, 0x30, 0x33, 0x0d, 0x0a]
    ensures var (s, ok) := ParseLine(line);
            && ok && s.checksumOk && s.talker == [0x47, 0x50] && s.kind == [0x48, 0x44, 0x54]
            && |s.fields| == 2 && s.fields[0] == [0x32, 0x37, 0x34, 0x2e, 0x30, 0x37] && s.fields[1] == [0x54]
  {
    hide ParseLine, Checksum;
    var s := Sentence([0x47, 0x50], [0x48, 0x44, 0x54], [[0x32, 0x37, 0x34, 0x2e, 0x30, 0x37], [0x54]], true);
    HeadingSum();
    HeadingParts();
    HeadingGood();
    assert HexDigit(HighHalf(0x03), true) == 0x30 && HexDigit(LowHalf(0x03), true) == 0x33;
    ParsePrinted(s, true, true, [0x0d, 0x0a]);
    assert Printed(Body(s.talker, s.kind, s.fields), true, true) + [0x0d, 0x0a] == line;
  }

  lemma HeadingGood()
    ensures GoodParts(Sentence([0x47, 0x50], [0x48, 0x44, 0x54], [[0x32, 0x37, 0x34, 0x2e, 0x30, 0x37], [0x54]], true))
  {}

  lemma HeadingParts()
    ensures Body([0x47, 0x50], [0x48, 0x44, 0x54], [[0x32, 0x37, 0x34, 0x2e, 0x30, 0x37], [0x54]]) == HEADING_BODY
  {
    var header, angle, reference: Text := [0x47, 0x50] + [0x48, 0x44, 0x54], [0x32, 0x37, 0x34, 0x2e, 0x30, 0x37], [0x54];
    JoinMore(angle, [reference]);
    JoinMore(header, [angle, reference]);
    assert [header] + [angle, reference] == [header, angle, reference] && [angle] + [reference] == [angle, reference];
    assert Join([reference]) == reference;
    assert header + [COMMA] + (angle + [COMMA] + reference) == HEADING_BODY;
  }

  lemma JoinMore(part: Text, parts: seq<Text>)
    requires |parts| > 0
    ensures Join([part] + parts) == part + [COMMA] + Join(parts)
  {
    assert ([part] + parts)[1..] == parts;
  }
}
