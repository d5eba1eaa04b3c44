/** What becomes of a string that the client quotes, escapes and cuts to fit its buffer. */
module StringText {
  import opened ClientText
  import opened Text
  import opened Values

  /** The text that a string field gets from a set command. */
  function ArrivedString(s: string): string {
    StripQuotes(Trim(Fit(Quoted(s), JSON_SIZE)))
  }

  // ---------------------------------------------------------------- escapes

  lemma {:induction false} EscapedConcat(a: string, b: string)
    ensures Escaped(a + b) == Escaped(a) + Escaped(b)
    decreases |b|
  {
    hide EscapedChar;
    if |b| == 0 {
      assert a + b == a;
    } else {
      assert (a + b)[..|a + b| - 1] == a + b[..|b| - 1];
      EscapedConcat(a, b[..|b| - 1]);
    }
  }

  lemma EscapedOne(c: char)
    ensures Escaped([c]) == EscapedChar(c)
  {
    assert [c][..0] == "";
  }

  predicate Quoting(c: char) {
    c == '"' || c == '\\'
  }

  predicate AllQuoting(s: string) {
    forall i :: 0 <= i < |s| ==> Quoting(s[i])
  }

  lemma EscapedLast(front: string, c: char)
    requires Quoting(c)
    ensures Escaped(front + [c]) == Escaped(front) + "\\" + [c]
  {
    assert (front + [c])[..|front|] == front;
  }

  /** `e` is `s` with a backslash in front of each character. */
  ghost predicate Doubles(e: string, s: string) {
    |e| == 2 * |s| && AllQuoting(e) && forall k :: 0 <= k < |s| ==> e[2 * k + 1] == s[k]
  }

  lemma DoublesMore(e: string, s: string, c: char)
    requires Doubles(e, s) && Quoting(c)
    ensures Doubles(e + "\\" + [c], s + [c])
  {
    var e', s' := e + "\\" + [c], s + [c];
    forall k | 0 <= k < |s'| ensures e'[2 * k + 1] == s'[k] {
      assert k < |s| ==> e'[2 * k + 1] == e[2 * k + 1];
    }
  }

  lemma DoublesNothing()
    ensures Doubles(Escaped(""), "")
  {}

  /** Quotes and backslashes are doubled: a backslash and the character itself. */
  lemma {:induction false} EscapedQuoting(s: string)
    requires AllQuoting(s)
    ensures Doubles(Escaped(s), s)
    decreases |s|
  {
    hide Escaped, Doubles;
    if |s| == 0 {
      DoublesNothing();
    } else {
      var front, c := s[..|s| - 1], s[|s| - 1];
      EscapedQuoting(front);
      EscapedLast(front, c);
      DoublesMore(Escaped(front), front, c);
      assert s == front + [c];
    }
  }

  /** The escaped text of a beginning is a beginning of the escaped text. */
  lemma EscapedPrefix(s: string, j: nat)
    requires j <= |s|
    ensures |Escaped(s[..j])| <= |Escaped(s)| && Escaped(s[..j]) == Escaped(s)[..|Escaped(s[..j])|]
  {
    hide Escaped;
    EscapedConcat(s[..j], s[j..]);
    assert s == s[..j] + s[j..];
  }

  // ---------------------------------------------------------------- what a cut string arrives as

  /** What stays of the escaped text in the buffer, behind the opening quote. */
  function CutBody(s: string): string
    requires |Quoted(s)| >= JSON_SIZE
  {
    TrimRight(Escaped(s)[..JSON_SIZE - 2])
  }

  /** A cut string arrives with the opening quote in front; but if the cut ends in a quote, both
      are taken for the quotes around the text. */
  lemma CutArrives(s: string)
    requires |Quoted(s)| >= JSON_SIZE
    ensures var r := CutBody(s);
            && r <= Escaped(s)[..JSON_SIZE - 2]
            && ArrivedString(s) == if |r| > 0 && r[|r| - 1] == '"' then r[..|r| - 1] else "\"" + r
  {
    hide Escaped;
    var body := Escaped(s)[..JSON_SIZE - 2];
    var cut := Fit(Quoted(s), JSON_SIZE);
    assert cut == "\"" + body;
    TrimPivot("", '"', body);
    assert "" + ['"'] + body == cut;
    var blanks := TrimRightSplit(body);
    var r := CutBody(s);
    var t := Trim(cut);
    assert t == "\"" + r;
    if |r| > 0 {
      assert t[|t| - 1] == r[|r| - 1];
      assert t[1..|t| - 1] == r[..|r| - 1];
    }
  }

  // ---------------------------------------------------------------- no cut string is unchanged

  /** A text that repeats the beginning of its own escaped form and starts with a backslash
      consists of backslashes. */
  lemma {:induction false} BackslashRun(u: string, j: nat)
    requires |u| > 0 && |u| <= |Escaped(u)| && u == Escaped(u)[..|u|] && Special(u[0]) && j <= |u|
    ensures forall k :: 0 <= k < j ==> u[k] == '\\'
    decreases j
  {
    hide Escaped;
    if j == 1 {
      EscapedPrefix(u, 1);
      assert u[..1] == [u[0]];
      EscapedOne(u[0]);
      assert Escaped(u)[0] == EscapedChar(u[0])[0];
    } else if j > 1 {
      BackslashRun(u, j - 1);
      BackslashNext(u, j - 1);
    }
  }

  lemma BackslashNext(u: string, j: nat)
    requires 0 < j <= |u| && forall k :: 0 <= k < j ==> u[k] == '\\'
    ensures j < |Escaped(u)| && Escaped(u)[j] == '\\'
  {
    hide Escaped;
    var w := u[..j];
    EscapedPrefix(u, j);
    EscapedBackslashes(w);
  }

  lemma {:induction false} EscapedBackslashes(w: string)
    requires forall k :: 0 <= k < |w| ==> w[k] == '\\'
    ensures |Escaped(w)| == 2 * |w| && forall k :: 0 <= k < |Escaped(w)| ==> Escaped(w)[k] == '\\'
    decreases |w|
  {
    if |w| > 0 {
      EscapedBackslashes(w[..|w| - 1]);
    }
  }

  /** Position of the first character that is escaped. */
  function FirstSpecial(s: string): (i: nat)
    ensures i <= |s| && Plain(s[..i]) && (i < |s| ==> Special(s[i]))
    ensures Plain(s) <==> i == |s|
  {
    if |s| == 0 then 0
    else
      var i := FirstSpecial(s[..|s| - 1]);
      assert s[..|s| - 1][..i] == s[..i];
      assert i == |s| - 1 ==> s[..i + 1] == s;
      if i < |s| - 1 then i else if Special(s[i]) then i else i + 1
  }

  /** A string that is the beginning of its own escaped form, up to a quote, has nothing to
      escape. */
  lemma PrefixOfItself(s: string)
    requires |s| < |Escaped(s)| && s == Escaped(s)[..|s|] && Escaped(s)[|s|] == '"'
    ensures Plain(s)
  {
    hide Escaped, FirstSpecial;
    var i := FirstSpecial(s);
    if i < |s| {
      var u := s[i..];
      EscapedPlain(s[..i]);
      EscapedConcat(s[..i], u);
      assert s == s[..i] + u;
      assert Escaped(s) == s[..i] + Escaped(u);
      assert Escaped(u)[..|u|] == u;
      BackslashRun(u, |u|);
      BackslashNext(u, |u|);
    }
  }

  /** A string that is a quote followed by the beginning of its own escaped form consists of
      quotes and backslashes. */
  lemma {:induction false} QuotingRun(s: string, j: nat)
    requires |s| > 0 && s[0] == '"' && |s| <= |Escaped(s)| + 1 && s[1..] == Escaped(s)[..|s| - 1] && j <= |s|
    ensures AllQuoting(s[..j])
    decreases j
  {
    hide Escaped;
    if j > 1 {
      QuotingRun(s, j - 1);
      var w := s[..j - 1];
      EscapedPrefix(s, j - 1);
      EscapedQuoting(w);
      assert s[j - 1] == s[1..][j - 2] == Escaped(w)[j - 2];
      assert s[..j] == w + [s[j - 1]];
    }
  }

  /** Such a string satisfies s[2k + 2] == s[k]. */
  lemma SelfDoubling(s: string, k: nat)
    requires |s| > 0 && s[0] == '"' && |s| <= |Escaped(s)| + 1 && s[1..] == Escaped(s)[..|s| - 1]
    requires 2 * k + 2 < |s|
    ensures s[2 * k + 2] == s[k]
  {
    hide Escaped;
    QuotingRun(s, |s|);
    assert s[..|s|] == s;
    EscapedQuoting(s);
    assert s[2 * k + 2] == s[1..][2 * k + 1];
  }

  /** It would have a quote in position 126, the last place in the buffer: 126 is reached from 0
      by doubling and adding two. */
  lemma QuoteAt126(s: string)
    requires |s| == JSON_SIZE - 1 && s[0] == '"' && |s| <= |Escaped(s)| + 1 && s[1..] == Escaped(s)[..|s| - 1]
    ensures s[126] == '"'
  {
    hide Escaped;
    SelfDoubling(s, 0);
    SelfDoubling(s, 2);
    SelfDoubling(s, 6);
    SelfDoubling(s, 14);
    SelfDoubling(s, 30);
    SelfDoubling(s, 62);
  }

  /** Nothing is trimmed off quotes and backslashes. */
  lemma QuotingCut(s: string)
    requires AllQuoting(s) && |Quoted(s)| >= JSON_SIZE
    ensures CutBody(s) == Escaped(s)[..JSON_SIZE - 2]
  {
    hide Escaped;
    EscapedQuoting(s);
  }

  /** A string whose quoted form is cut never arrives unchanged. */
  lemma CutChanges(s: string)
    requires |Quoted(s)| >= JSON_SIZE
    ensures ArrivedString(s) != s
  {
    hide Escaped, ArrivedString, CutBody, Plain;
    CutArrives(s);
    EscapedPlain(s);
    var r := CutBody(s);
    if ArrivedString(s) == s {
      if |r| > 0 && r[|r| - 1] == '"' {
        PrefixOfItself(s);
      } else {
        assert s[1..] == r;
        QuotingRun(s, |s|);
        assert s[..|s|] == s;
        QuotingCut(s);
        QuoteAt126(s);
      }
    }
  }

  // ---------------------------------------------------------------- the exact condition

  lemma WholeArrives(s: string)
    requires |Quoted(s)| < JSON_SIZE
    ensures ArrivedString(s) == Escaped(s)
  {
    hide Escaped;
    var q := Quoted(s);
    TrimNothing(q);
    assert q[1..|q| - 1] == Escaped(s);
  }

  /** A string arrives unchanged exactly when none of its characters is escaped, for the server
      does not undo escapes, and its quoted form fits the buffer. */
  lemma StringExactIff(s: string)
    ensures ArrivedString(s) == s <==> Plain(s) && |Quoted(s)| <= 127
  {
    hide Escaped, ArrivedString, Plain;
    if |Quoted(s)| < JSON_SIZE {
      WholeArrives(s);
      EscapedPlain(s);
    } else {
      CutChanges(s);
    }
  }

  // ---------------------------------------------------------------- what the escapes mean

  /** Reading a text the way JSON does: a backslash announces a character. */
  function Unescaped(t: string): string {
    if |t| == 0 then ""
    else if t[0] == '\\' && |t| >= 2 then [Announced(t[1])] + Unescaped(t[2..])
    else [t[0]] + Unescaped(t[1..])
  }

  function Announced(c: char): char {
    if c == 'n' then '\n' else if c == 'r' then '\r' else if c == 't' then '\t' else c
  }

  lemma UnescapedFirst(c: char, rest: string)
    ensures Unescaped(EscapedChar(c) + rest) == [c] + Unescaped(rest)
  {
    var t := EscapedChar(c) + rest;
    assert t[|EscapedChar(c)|..] == rest;
  }

  /** The client's escapes can be undone: reading the text as JSON gives the string back. */
  lemma {:induction false} UnescapedClient(s: string)
    ensures Unescaped(Escaped(s)) == s
    decreases |s|
  {
    hide Unescaped, EscapedChar;
    if |s| == 0 {
      UnescapedNothing();
    } else {
      var rest := s[1..];
      assert s == [s[0]] + rest;
      EscapedConcat([s[0]], rest);
      EscapedOne(s[0]);
      UnescapedFirst(s[0], Escaped(rest));
      UnescapedClient(rest);
    }
  }

  lemma UnescapedNothing()
    ensures Unescaped("") == ""
  {}

  function Quote(c: char): string {
    (if c == '"' || c == '\\' then "\\" else "") + [c]
  }

  lemma {:induction false} EscapedQuotesConcat(a: string, b: string)
    ensures EscapedQuotes(a + b) == EscapedQuotes(a) + EscapedQuotes(b)
    decreases |b|
  {
    if |b| == 0 {
      assert a + b == a;
    } else {
      assert (a + b)[..|a + b| - 1] == a + b[..|b| - 1];
      EscapedQuotesConcat(a, b[..|b| - 1]);
    }
  }

  lemma EscapedQuotesOne(c: char)
    ensures EscapedQuotes([c]) == Quote(c)
  {
    assert [c][..0] == "";
  }

  lemma UnescapedQuote(c: char, rest: string)
    ensures Unescaped(Quote(c) + rest) == [c] + Unescaped(rest)
  {
    var t := Quote(c) + rest;
    assert t[|Quote(c)|..] == rest;
  }

  /** So can the server's. */
  lemma {:induction false} UnescapedServer(s: string)
    ensures Unescaped(EscapedQuotes(s)) == s
    decreases |s|
  {
    hide Unescaped, Quote;
    if |s| == 0 {
      UnescapedNothing();
    } else {
      var rest := s[1..];
      assert s == [s[0]] + rest;
      EscapedQuotesConcat([s[0]], rest);
      EscapedQuotesOne(s[0]);
      UnescapedQuote(s[0], EscapedQuotes(rest));
      UnescapedServer(rest);
    }
  }
}
