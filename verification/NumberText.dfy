/** What becomes of a number that the client prints into its buffer of 32 characters. */
module NumberText {
  import opened ClientText
  import opened Decimal
  import opened Wrappers

  function Sign(x: real): string {
    if x < 0.0 then "-" else ""
  }

  function IntegerDigits(x: real): string {
    Natural(WholePart(Units(x, 6), 6))
  }

  function Decimals(x: real): string {
    Padded(FractionPart(Units(x, 6), 6), 6)
  }

  /** Sign, integer digits, and a point only before a fraction that does not end in zero. */
  function Canonical(x: real): string {
    Sign(x) + IntegerDigits(x) + PointFraction(DropZeros(Decimals(x)))
  }

  /** The characters in front of the point. */
  function Lead(x: real): nat {
    |Sign(x)| + |IntegerDigits(x)|
  }

  /** The canonical text fits the buffer.  If there is no room for the point, the last integer
      digit must not be a zero, for trimming would take it off. */
  predicate Intact(x: real) {
    var ip := IntegerDigits(x);
    |Canonical(x)| < NUMBER_SIZE && (Lead(x) == NUMBER_SIZE - 1 ==> ip[|ip| - 1] != '0')
  }

  // ---------------------------------------------------------------- trimming

  lemma {:induction false} DropZerosAfter(head: string, fp: string)
    requires |head| > 0 ==> head[|head| - 1] != '0'
    ensures DropZeros(head + fp) == head + DropZeros(fp)
    decreases |fp|
  {
    if |fp| == 0 {
      assert head + fp == head;
    } else {
      assert (head + fp)[..|head + fp| - 1] == head + fp[..|fp| - 1];
      DropZerosAfter(head, fp[..|fp| - 1]);
    }
  }

  /** Taking zeros off the fraction does not change the value. */
  lemma {:induction false} DropZerosValue(ip: string, fp: string)
    requires AllDigits(ip) && AllDigits(fp)
    ensures AllDigits(DropZeros(fp)) && DecimalValue(ip, DropZeros(fp)) == DecimalValue(ip, fp)
    decreases |fp|
  {
    hide DecimalValue;
    if |fp| > 0 && fp[|fp| - 1] == '0' {
      var front := fp[..|fp| - 1];
      DropZerosValue(ip, front);
      DigitStep(ip, front, '0');
      assert fp == front + ['0'];
    }
  }

  lemma CanonicalTail(front: string, fp: string)
    requires front != "" && front != "-"
    requires |fp| > 0 ==> fp[|fp| - 1] != '.'
    ensures DropPoint(front + "." + fp) == front + PointFraction(fp)
    ensures front + PointFraction(fp) != "" && front + PointFraction(fp) != "-"
  {
    var s := front + "." + fp;
    if |fp| == 0 {
      assert s[..|s| - 1] == front && front + "" == front;
    } else {
      assert s[|s| - 1] == fp[|fp| - 1] && front + ("." + fp) == s && |s| > 2;
    }
  }

  /** With a point in the text only the fraction is trimmed. */
  lemma TrimmedFraction(sign: string, ip: string, fp: string)
    requires sign == "" || sign == "-"
    requires AllDigits(ip) && |ip| > 0 && AllDigits(fp)
    ensures TrimNumber(sign + ip + "." + fp) == sign + ip + PointFraction(DropZeros(fp))
  {
    hide DropZeros;
    var text := sign + ip + "." + fp;
    assert text[0] != ' ';
    assert DropSpaces(text) == text;
    DropZerosAfter(sign + ip + ".", fp);
    CanonicalTail(sign + ip, DropZeros(fp));
  }

  /** What trimming leaves of digits without a point. */
  function Shortened(digits: string): string {
    if DropZeros(digits) == "" then "0" else DropZeros(digits)
  }

  /** Without a point the zeros of the integer are trimmed. */
  lemma TrimmedInteger(sign: string, digits: string)
    requires sign == "" || sign == "-"
    requires AllDigits(digits) && |digits| > 0
    ensures TrimNumber(sign + digits) == sign + Shortened(digits)
    ensures AllDigits(Shortened(digits)) && |Shortened(digits)| > 0
  {
    hide DropZeros;
    var text := sign + digits;
    assert text[0] != ' ';
    assert DropSpaces(text) == text;
    DropZerosAfter(sign, digits);
    var left := DropZeros(digits);
    assert left <= digits;
    assert DropPoint(sign + left) == sign + left;
    assert sign + "" == sign;
  }

  // ---------------------------------------------------------------- what is sent

  /** How many of the six decimals stay. */
  function Room(x: real): nat {
    if Lead(x) <= 24 then 6 else if Lead(x) <= 30 then 30 - Lead(x) else 0
  }

  /** The digits on the wire, before and after the point. */
  function SentInteger(x: real): string {
    if Lead(x) <= 30 then IntegerDigits(x) else Shortened(KeptDigits(x))
  }

  function KeptDigits(x: real): string {
    var m := NUMBER_SIZE - 1 - |Sign(x)|;
    if m <= |IntegerDigits(x)| then IntegerDigits(x)[..m] else IntegerDigits(x)
  }

  function SentFraction(x: real): string {
    DropZeros(Decimals(x)[..Room(x)])
  }

  /** Whatever the number, a sign, digits and possibly a fraction are sent. */
  lemma RealTextForm(x: real)
    ensures RealText(x) == Sign(x) + SentInteger(x) + PointFraction(SentFraction(x))
    ensures AllDigits(SentInteger(x)) && |SentInteger(x)| > 0 && AllDigits(SentFraction(x))
  {
    hide Natural, Padded, Units, WholePart, FractionPart, TrimNumber, DropZeros, Shortened;
    var sign, ip, fp := Sign(x), IntegerDigits(x), Decimals(x);
    var text := FixedText(x, 6);
    assert text == sign + ip + "." + fp;
    var g := fp[..Room(x)];
    if Lead(x) <= 30 {
      assert Fit(text, NUMBER_SIZE) == sign + ip + "." + g;
      TrimmedFraction(sign, ip, g);
      assert DropZeros(g) <= g;
    } else {
      assert Fit(text, NUMBER_SIZE) == sign + KeptDigits(x);
      TrimmedInteger(sign, KeptDigits(x));
      assert g == "" && DropZeros(g) == "";
      assert sign + SentInteger(x) + "" == sign + SentInteger(x);
    }
  }

  /** The number that arrives. */
  function ArrivedReal(x: real): real {
    SentDigits(x);
    var v := DecimalValue(SentInteger(x), SentFraction(x));
    if x < 0.0 then -v else v
  }

  lemma SentDigits(x: real)
    ensures AllDigits(SentInteger(x)) && AllDigits(SentFraction(x))
  {
    RealTextForm(x);
  }

  /** Every printed number can be read. */
  lemma RealTextReads(x: real)
    ensures Strtof(RealText(x)) == Some(ArrivedReal(x))
  {
    hide Strtof, RealText, SentInteger, SentFraction, DecimalValue;
    RealTextForm(x);
    StrtofReads(x < 0.0, SentInteger(x), SentFraction(x));
  }

  // ---------------------------------------------------------------- whether it is the same number

  predicate AllZeros(s: string) {
    forall i :: 0 <= i < |s| ==> s[i] == '0'
  }

  /** Further decimals do not make the value smaller, and leave it alone only if they are all
      zeros. */
  lemma {:induction false} MoreDecimals(ip: string, g: string, t: string)
    requires AllDigits(ip) && AllDigits(g) && AllDigits(t)
    ensures DecimalValue(ip, g + t) >= DecimalValue(ip, g)
    ensures DecimalValue(ip, g + t) == DecimalValue(ip, g) <==> AllZeros(t)
    decreases |t|
  {
    hide DecimalValue;
    if |t| == 0 {
      assert g + t == g;
    } else {
      var front, d := t[..|t| - 1], t[|t| - 1];
      MoreDecimals(ip, g, front);
      DigitStep(ip, g + front, d);
      assert g + t == g + front + [d];
      assert t == front + [d];
    }
  }

  lemma {:induction false} DropZerosReach(s: string, k: nat)
    requires k <= |s|
    ensures |DropZeros(s)| <= k <==> AllZeros(s[k..])
    decreases |s|
  {
    if k < |s| {
      var front, c := s[..|s| - 1], s[|s| - 1];
      assert s[k..] == front[k..] + [c];
      assert s[k..][|s| - 1 - k] == c;
      if c == '0' {
        DropZerosReach(front, k);
      }
    } else {
      assert s[k..] == "";
    }
  }

  /** Taking zeros off an integer makes it smaller. */
  lemma {:induction false} DropZerosSmaller(s: string)
    requires AllDigits(s) && |s| > 0
    ensures AllDigits(Shortened(s)) && ValueOf(Shortened(s)) <= ValueOf(s)
    ensures s[|s| - 1] == '0' && ValueOf(s) > 0 ==> ValueOf(Shortened(s)) < ValueOf(s)
    ensures s[|s| - 1] != '0' ==> Shortened(s) == s
    decreases |s|
  {
    ZeroText();
    if s[|s| - 1] == '0' {
      var front := s[..|s| - 1];
      if |front| > 0 {
        DropZerosSmaller(front);
        assert Shortened(s) == Shortened(front);
      } else {
        assert Shortened(s) == "0" && s == "0";
      }
    }
  }

  lemma ZeroText()
    ensures AllDigits("0") && ValueOf("0") == 0
  {}

  /** A proper beginning of an integer is smaller. */
  lemma PrefixSmaller(s: string, m: nat)
    requires AllDigits(s) && m < |s| && ValueOf(s) > 0
    ensures ValueOf(s[..m]) < ValueOf(s)
  {
    hide ValueOf, Pow10;
    var c, rest := s[..m], s[m..];
    assert s == c + rest;
    ValueOfConcat(c, rest);
    AtLeastTen(|rest|);
    TimesTen(ValueOf(c), Pow10(|rest|), ValueOf(rest));
  }

  lemma AtLeastTen(k: nat)
    requires k > 0
    ensures Pow10(k) >= 10
  {}

  lemma TimesTen(v: nat, p: nat, w: nat)
    requires p >= 10 && v * p + w > 0
    ensures v < v * p + w
  {
    if v > 0 {
      assert v * p >= v * 10;
    }
  }

  /** What is left of an integer without a point is the integer itself exactly if nothing was cut
      off and it does not end in zero. */
  lemma KeptExactIff(x: real)
    requires Lead(x) >= 31
    ensures AllDigits(Shortened(KeptDigits(x)))
    ensures var ip := IntegerDigits(x);
            && ValueOf(Shortened(KeptDigits(x))) <= ValueOf(ip)
            && (ValueOf(Shortened(KeptDigits(x))) == ValueOf(ip) <==> Lead(x) == 31 && ip[|ip| - 1] != '0')
  {
    hide Shortened, ValueOf, Natural, Units, WholePart;
    var ip, kept := IntegerDigits(x), KeptDigits(x);
    LongIsPositive(WholePart(Units(x, 6), 6));
    DropZerosSmaller(kept);
    if Lead(x) == 31 {
      assert kept == ip;
    } else {
      PrefixSmaller(ip, |kept|);
    }
  }

  lemma LongIsPositive(n: nat)
    ensures |Natural(n)| > 1 ==> ValueOf(Natural(n)) > 0
  {}

  lemma WholeValue(ip: string)
    requires AllDigits(ip)
    ensures DecimalValue(ip, "") == ValueOf(ip) as real
  {
    assert ip + "" == ip && Pow10(0) == 1;
  }

  /** A number arrives as itself, rounded to six decimals, exactly when its canonical text fits
      and keeps its zeros. */
  lemma ArrivesExactIff(x: real)
    ensures ArrivedReal(x) == Rounded(x, 6) <==> Intact(x)
  {
    hide Natural, Padded, Units, WholePart, FractionPart, DecimalValue, ValueOf, DropZeros, Shortened;
    var ip, fp := IntegerDigits(x), Decimals(x);
    var g, t := fp[..Room(x)], fp[Room(x)..];
    DecimalOfParts(Units(x, 6), 6);
    SentDigits(x);
    assert fp == g + t;
    DropZerosReach(fp, Room(x));
    if Lead(x) <= 30 {
      MoreDecimals(ip, g, t);
      DropZerosValue(ip, g);
    } else {
      KeptExactIff(x);
      WholeValue(ip);
      WholeValue(SentInteger(x));
      assert g == "" && SentFraction(x) == "";
      MoreDecimals(ip, "", fp);
      assert "" + fp == fp;
    }
  }

  // ---------------------------------------------------------------- powers of ten

  function Noughts(k: nat): string {
    if k == 0 then "" else Noughts(k - 1) + "0"
  }

  lemma TenfoldDigits(n: nat)
    requires n > 0
    ensures Natural(10 * n) == Natural(n) + "0"
  {
    assert 10 * n / 10 == n && 10 * n % 10 == 0 && DigitChar(0) == '0';
  }

  lemma {:induction false} PowerDigits(k: nat)
    ensures Natural(Pow10(k)) == "1" + Noughts(k) && |Noughts(k)| == k
    decreases k
  {
    if k > 0 {
      PowerDigits(k - 1);
      TenfoldDigits(Pow10(k - 1));
      assert Pow10(k) == 10 * Pow10(k - 1);
      hide Natural, Pow10;
    }
  }

  lemma {:induction false} NoughtsDrop(k: nat, m: nat)
    requires m <= k
    ensures |Noughts(k)| == k && Noughts(k)[..m] == Noughts(m) && DropZeros("1" + Noughts(m)) == "1"
    decreases k
  {
    if k > 0 {
      if m < k {
        NoughtsDrop(k - 1, m);
      } else {
        NoughtsDrop(k - 1, k - 1);
        var s := "1" + Noughts(k);
        assert s[..|s| - 1] == "1" + Noughts(k - 1);
      }
    }
  }

  lemma WholeMillionths(v: nat)
    ensures Units(v as real, 6) == v * 1000000
    ensures WholePart(v * 1000000, 6) == v
  {
    assert Pow10(6) == 1000000;
    hide Pow10, Nearest;
    var n := v * 1000000;
    assert Times(v as real, 1000000) == n as real;
    NearestIs(n as real, n);
  }

  lemma PowerUnits(k: nat)
    ensures Units(Pow10(k) as real, 6) == Pow10(k) * 1000000
    ensures WholePart(Units(Pow10(k) as real, 6), 6) == Pow10(k)
  {
    hide Pow10, Units, WholePart;
    WholeMillionths(Pow10(k));
  }

  /** From 10^30 on a power of ten has no room for its point, loses all its zeros, and arrives as
      1. */
  lemma LargePowersArriveAsOne(k: nat)
    requires k >= 30
    ensures ArrivedReal(Pow10(k) as real) == 1.0
  {
    hide Natural, Pow10, Units, WholePart, DropZeros, Noughts;
    var x := Pow10(k) as real;
    PowerUnits(k);
    PowerDigits(k);
    NoughtsDrop(k, 30);
    assert KeptDigits(x) == "1" + Noughts(30);
    assert SentInteger(x) == "1";
    assert SentFraction(x) == "" by {
      assert Decimals(x)[..Room(x)] == "";
      NothingToDrop();
    }
    OneIsOne();
  }

  lemma NothingToDrop()
    ensures DropZeros("") == ""
  {}

  lemma OneIsOne()
    ensures AllDigits("1") && DecimalValue("1", "") == 1.0
  {
    assert "1" + "" == "1" && ValueOf("") == 0 && ValueOf("1") == 1 && Pow10(0) == 1;
  }
}
