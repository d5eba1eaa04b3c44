/** Decimal text: what fixed-point printing writes and what number parsing reads. */
module Decimal {
  import opened Wrappers

  function Pow10(k: nat): (p: nat)
    ensures p > 0
  {
    if k == 0 then 1 else 10 * Pow10(k - 1)
  }

  const DIGITS := "0123456789"

  predicate IsDigit(c: char) {
    '0' <= c <= '9'
  }

  predicate AllDigits(s: string) {
    forall i :: 0 <= i < |s| ==> IsDigit(s[i])
  }

  function DigitValue(c: char): nat
    requires IsDigit(c)
  {
    c as int - '0' as int
  }

  function DigitChar(d: nat): (c: char)
    requires d < 10
    ensures IsDigit(c) && DigitValue(c) == d
    ensures c == '0' <==> d == 0
  {
    DIGITS[d]
  }

  function ValueOf(s: string): nat
    requires AllDigits(s)
  {
    if |s| == 0 then 0 else 10 * ValueOf(s[..|s| - 1]) + DigitValue(s[|s| - 1])
  }

  // ---------------------------------------------------------------- printing

  /** Digits without leading zeros. */
  function Natural(n: nat): (s: string)
    ensures |s| > 0 && AllDigits(s) && ValueOf(s) == n
  {
    if n < 10 then [DigitChar(n)]
    else
      var front := Natural(n / 10);
      var s := front + [DigitChar(n % 10)];
      assert s[..|s| - 1] == front;
      s
  }

  /** The last `width` digits. */
  function Padded(n: nat, width: nat): (s: string)
    ensures |s| == width && AllDigits(s)
  {
    if width == 0 then "" else Padded(n / 10, width - 1) + [DigitChar(n % 10)]
  }

  /** Round half to even. */
  function Nearest(y: real): (n: nat)
    requires y >= 0.0
  {
    var f := y.Floor;
    if y - f as real < 0.5 then f
    else if y - f as real > 0.5 then f + 1
    else if f % 2 == 0 then f else f + 1
  }

  function Magnitude(x: real): real {
    if x < 0.0 then -x else x
  }

  function Times(x: real, p: nat): (y: real)
    ensures x >= 0.0 ==> y >= 0.0
  {
    x * p as real
  }

  /** The absolute value of a number in units of 10^-places. */
  function Units(x: real, places: nat): nat {
    Nearest(Times(Magnitude(x), Pow10(places)))
  }

  function Quotient(n: nat, p: nat): nat
    requires p > 0
  {
    n / p
  }

  function WholePart(n: nat, places: nat): nat {
    Quotient(n, Pow10(places))
  }

  function FractionPart(n: nat, places: nat): (f: nat)
    ensures f < Pow10(places)
  {
    n % Pow10(places)
  }

  /** The text that the format "%.<places>f" prints. */
  function FixedText(x: real, places: nat): string {
    var n := Units(x, places);
    (if x < 0.0 then "-" else "") + Natural(WholePart(n, places)) + "." + Padded(FractionPart(n, places), places)
  }

  /** The number that the text stands for. */
  function Rounded(x: real, places: nat): real {
    var r := Units(x, places) as real / Pow10(places) as real;
    if x < 0.0 then -r else r
  }

  // ---------------------------------------------------------------- parsing

  predicate IsSpace(c: char) {
    c == ' ' || '\t' <= c <= '\r'
  }

  function SkipSpace(s: string): string {
    if |s| > 0 && IsSpace(s[0]) then SkipSpace(s[1..]) else s
  }

  /** The leading digits. */
  function Run(s: string): (d: string)
    ensures |d| <= |s| && d == s[..|d|] && AllDigits(d)
    ensures |d| == |s| || !IsDigit(s[|d|])
  {
    if |s| > 0 && IsDigit(s[0]) then [s[0]] + Run(s[1..]) else ""
  }

  function DecimalValue(ip: string, fp: string): real
    requires AllDigits(ip) && AllDigits(fp)
  {
    ValueOf(ip + fp) as real / Pow10(|fp|) as real
  }

  function Exponent(s: string): int {
    if |s| == 0 || (s[0] != 'e' && s[0] != 'E') then 0
    else if |s| > 1 && (s[1] == '-' || s[1] == '+') then
      (if s[1] == '-' then -(ValueOf(Run(s[2..])) as int) else ValueOf(Run(s[2..])))
    else ValueOf(Run(s[1..]))
  }

  function Scale(v: real, e: int): real {
    if e >= 0 then v * Pow10(e) as real else v / Pow10(-e) as real
  }

  function Fraction(s: string): (fp: string)
    ensures AllDigits(fp) && |fp| < |s| + 1
    ensures |fp| > 0 ==> |fp| < |s|
  {
    if |s| > 0 && s[0] == '.' then Run(s[1..]) else ""
  }

  /** Digits with at most one point, then an optional exponent. */
  function Unsigned(s: string): Option<real> {
    var ip := Run(s);
    var rest := s[|ip|..];
    var fp := Fraction(rest);
    var after := if |rest| > 0 && rest[0] == '.' then rest[1 + |fp|..] else rest;
    if |ip| + |fp| == 0 then None else Some(Scale(DecimalValue(ip, fp), Exponent(after)))
  }

  /** What `strtof` reads at the start of a text: decimal numbers only. */
  function Strtof(s: string): Option<real> {
    var t := SkipSpace(s);
    if |t| > 0 && t[0] == '-' then
      match Unsigned(t[1..])
      case Some(v) => Some(-v)
      case None => None
    else if |t| > 0 && t[0] == '+' then Unsigned(t[1..])
    else Unsigned(t)
  }

  // ---------------------------------------------------------------- digits

  lemma TenTimes(v: nat, p: nat)
    ensures v * (10 * p) == 10 * (v * p)
  {}

  lemma {:induction false} ValueOfConcat(a: string, b: string)
    requires AllDigits(a) && AllDigits(b)
    ensures ValueOf(a + b) == ValueOf(a) * Pow10(|b|) + ValueOf(b)
    decreases |b|
  {
    if |b| == 0 {
      assert a + b == a;
    } else {
      var front, d := b[..|b| - 1], b[|b| - 1];
      ValueOfConcat(a, front);
      ValueOfSnoc(a + front, d);
      ValueOfSnoc(front, d);
      assert a + b == a + front + [d] && b == front + [d];
      hide ValueOf, Pow10;
      TenfoldStep(ValueOf(a), Pow10(|front|), ValueOf(front), DigitValue(d));
    }
  }

  lemma ValueOfSnoc(s: string, d: char)
    requires AllDigits(s) && IsDigit(d)
    ensures AllDigits(s + [d]) && ValueOf(s + [d]) == 10 * ValueOf(s) + DigitValue(d) && Pow10(|s + [d]|) == 10 * Pow10(|s|)
  {
    assert (s + [d])[..|s|] == s;
  }

  lemma TenfoldStep(v: nat, p: nat, w: nat, d: nat)
    ensures 10 * (v * p + w) + d == v * (10 * p) + (10 * w + d)
  {
    TenTimes(v, p);
  }

  lemma {:induction false} ValueOfPadded(n: nat, width: nat)
    requires n < Pow10(width)
    ensures ValueOf(Padded(n, width)) == n
    decreases width
  {
    if width > 0 {
      ValueOfPadded(n / 10, width - 1);
      var s := Padded(n, width);
      assert s[..|s| - 1] == Padded(n / 10, width - 1);
    }
  }

  /** The printed digits, point left out, are the number of units. */
  lemma ValueOfParts(n: nat, places: nat)
    ensures ValueOf(Natural(WholePart(n, places)) + Padded(FractionPart(n, places), places)) == n
  {
    hide Natural, Padded, ValueOf;
    var w, f := WholePart(n, places), FractionPart(n, places);
    ValueOfPadded(f, places);
    ValueOfConcat(Natural(w), Padded(f, places));
    QuotientAndRemainder(n, Pow10(places));
  }

  lemma QuotientAndRemainder(n: nat, p: nat)
    requires p > 0
    ensures n / p * p + n % p == n
  {}

  lemma TenthPart(v: nat, d: nat, p: nat)
    requires p > 0
    ensures (10 * v + d) as real / (10 * p) as real >= v as real / p as real
    ensures (10 * v + d) as real / (10 * p) as real == v as real / p as real <==> d == 0
  {
    var q, r := v as real / p as real, d as real / (10 * p) as real;
    assert q * p as real == v as real;
    assert r * (10 * p) as real == d as real;
    assert (q + r) * (10 * p) as real == (10 * v + d) as real;
    assert r >= 0.0 && (r == 0.0 <==> d == 0);
  }

  /** One more decimal does not make the value smaller, and only a zero leaves it alone. */
  lemma DigitStep(ip: string, fp: string, d: char)
    requires AllDigits(ip) && AllDigits(fp) && IsDigit(d)
    ensures DecimalValue(ip, fp + [d]) >= DecimalValue(ip, fp)
    ensures DecimalValue(ip, fp + [d]) == DecimalValue(ip, fp) <==> d == '0'
  {
    var s := ip + (fp + [d]);
    assert s[..|s| - 1] == ip + fp;
    TenthPart(ValueOf(ip + fp), DigitValue(d), Pow10(|fp|));
  }

  /** The decimal value of the printed digits. */
  lemma DecimalOfParts(n: nat, places: nat)
    ensures DecimalValue(Natural(WholePart(n, places)), Padded(FractionPart(n, places), places)) ==
            n as real / Pow10(places) as real
  {
    ValueOfParts(n, places);
  }

  // ---------------------------------------------------------------- reading back

  lemma {:induction false} RunDigits(d: string, rest: string)
    requires AllDigits(d) && (|rest| > 0 ==> !IsDigit(rest[0]))
    ensures Run(d + rest) == d
    decreases |d|
  {
    if |d| == 0 {
      assert d + rest == rest;
    } else {
      assert (d + rest)[1..] == d[1..] + rest;
      RunDigits(d[1..], rest);
    }
  }

  /** A fraction with its point, or nothing. */
  function PointFraction(fp: string): string {
    if |fp| == 0 then "" else "." + fp
  }

  lemma ScaleNothing(v: real)
    ensures Scale(v, 0) == v
  {}

  lemma UnsignedReads(ip: string, fp: string)
    requires AllDigits(ip) && AllDigits(fp) && |ip| > 0
    ensures Unsigned(ip + PointFraction(fp)) == Some(DecimalValue(ip, fp))
  {
    hide ValueOf, Pow10;
    var rest := PointFraction(fp);
    var s := ip + rest;
    ScaleNothing(DecimalValue(ip, fp));
    RunDigits(ip, rest);
    assert s[|ip|..] == rest;
    if |fp| > 0 {
      assert rest[1..] == fp;
      RunDigits(fp, "");
      assert fp + "" == fp;
      assert rest[1 + |fp|..] == "";
    }
  }

  /** An optional minus sign does what it says. */
  lemma StrtofReads(negative: bool, ip: string, fp: string)
    requires AllDigits(ip) && AllDigits(fp) && |ip| > 0
    ensures Strtof((if negative then "-" else "") + ip + PointFraction(fp)) ==
            Some(if negative then -DecimalValue(ip, fp) else DecimalValue(ip, fp))
  {
    hide Unsigned, PointFraction, DecimalValue, Run;
    var text := ip + PointFraction(fp);
    UnsignedReads(ip, fp);
    assert text[0] == ip[0] && IsDigit(ip[0]);
    SkipNothing(text);
    SkipNothing("-" + text);
    assert ("-" + text)[1..] == text;
    assert "-" + ip + PointFraction(fp) == "-" + text;
    assert "" + ip + PointFraction(fp) == text;
  }

  lemma SkipNothing(s: string)
    requires |s| > 0 ==> !IsSpace(s[0])
    ensures SkipSpace(s) == s
  {}

  /** Reading printed text returns the printed number. */
  lemma StrtofFixedText(x: real, places: nat)
    requires places > 0
    ensures Strtof(FixedText(x, places)) == Some(Rounded(x, places))
  {
    hide Natural, Padded, Units, Strtof, DecimalValue;
    var n := Units(x, places);
    var ip, fp := Natural(WholePart(n, places)), Padded(FractionPart(n, places), places);
    StrtofReads(x < 0.0, ip, fp);
    DecimalOfParts(n, places);
    var sign := if x < 0.0 then "-" else "";
    assert FixedText(x, places) == sign + ip + PointFraction(fp);
  }

  // ---------------------------------------------------------------- printing and reading in plain terms

  /** The nearest whole number; of two equally near ones the even one. */
  lemma NearestIs(y: real, n: nat)
    requires y >= 0.0
    ensures n == Nearest(y) <==> -0.5 <= y - n as real <= 0.5 && (y - n as real == 0.5 || y - n as real == -0.5 ==> n % 2 == 0)
  {}

  /** Integers are printed without leading zeros. */
  lemma {:induction false} NoLeadingZero(n: nat)
    ensures |Natural(n)| > 1 ==> Natural(n)[0] != '0'
    decreases n
  {
    if n >= 10 {
      NoLeadingZero(n / 10);
    }
  }

  /** The whole number of units nearest to the absolute value, the even one of two. */
  predicate Near(x: real, p: nat, n: nat) {
    var y := x * p as real - n as real;
    -0.5 <= y <= 0.5 && (y == 0.5 || y == -0.5 ==> n % 2 == 0)
  }

  lemma UnitsNear(x: real, places: nat)
    ensures Near(if x < 0.0 then -x else x, Pow10(places), Units(x, places))
  {
    hide Nearest, Pow10;
    var y := Times(Magnitude(x), Pow10(places));
    assert Units(x, places) == Nearest(y);
    NearestIs(y, Nearest(y));
    assert Near(Magnitude(x), Pow10(places), Nearest(y));
    hide Near;
  }

  /** Fixed-point text: a sign if negative, the integer digits, a point, and as many digits as
      asked for, which together are the number of units nearest to the absolute value. */
  lemma FixedTextForm(x: real, places: nat) returns (ip: string, fp: string)
    ensures AllDigits(ip) && |ip| > 0 && (|ip| > 1 ==> ip[0] != '0') && AllDigits(fp) && |fp| == places
    ensures FixedText(x, places) == (if x < 0.0 then "-" else "") + ip + "." + fp
    ensures Near(if x < 0.0 then -x else x, Pow10(places), ValueOf(ip + fp))
  {
    hide Natural, Padded, ValueOf, Units, Pow10, WholePart, FractionPart, Near;
    var n := Units(x, places);
    ip, fp := Natural(WholePart(n, places)), Padded(FractionPart(n, places), places);
    NoLeadingZero(WholePart(n, places));
    ValueOfParts(n, places);
    UnitsNear(x, places);
  }

  /** An exponent scales the digits that precede it. */
  lemma ExponentScales(ip: string, tail: string, negative: bool, e: string)
    requires AllDigits(ip) && |ip| > 0 && AllDigits(e) && |e| > 0
    requires tail == (if negative then "e-" else "e") + e
    ensures Unsigned(ip + tail) == Some(Scaled(ValueOf(ip), negative, ValueOf(e)))
  {
    hide ValueOf, Pow10, Exponent, Scale;
    var s := ip + tail;
    RunDigits(ip, tail);
    assert s[|ip|..] == tail;
    assert Fraction(tail) == "";
    assert ip + "" == ip;
    ExponentReads(tail, negative, e);
    ScaleWhole(ip, negative, ValueOf(e));
  }

  /** A natural number times, or divided by, a power of ten. */
  function Scaled(v: nat, divided: bool, e: nat): real {
    if divided then v as real / Pow10(e) as real else v as real * Pow10(e) as real
  }

  lemma ScaleWhole(ip: string, divided: bool, e: nat)
    requires AllDigits(ip) && |ip| > 0
    ensures AllDigits("") && Scale(DecimalValue(ip, ""), if divided then -(e as int) else e as int) == Scaled(ValueOf(ip), divided, e)
  {
    hide ValueOf;
    assert ip + "" == ip;
    assert DecimalValue(ip, "") == ValueOf(ip) as real / 1.0;
  }

  lemma ExponentReads(tail: string, negative: bool, e: string)
    requires AllDigits(e) && |e| > 0
    requires tail == (if negative then "e-" else "e") + e
    ensures Exponent(tail) == if negative then -(ValueOf(e) as int) else ValueOf(e)
  {
    hide ValueOf;
    RunDigits(e, "");
    assert e + "" == e;
    if negative {
      assert tail[2..] == e;
    } else {
      assert tail[1..] == e;
    }
  }
}
