/** String views: trimming and searching. */
module Text {

  predicate IsBlank(c: char) {
    c == ' ' || c == '\t' || c == '\r' || c == '\n'
  }

  predicate AllBlank(s: string) {
    forall i :: 0 <= i < |s| ==> IsBlank(s[i])
  }

  /** Neither end is blank. */
  predicate Trimmed(s: string) {
    |s| > 0 ==> !IsBlank(s[0]) && !IsBlank(s[|s| - 1])
  }

  function TrimLeft(s: string): string {
    if |s| > 0 && IsBlank(s[0]) then TrimLeft(s[1..]) else s
  }

  function TrimRight(s: string): string {
    if |s| > 0 && IsBlank(s[|s| - 1]) then TrimRight(s[..|s| - 1]) else s
  }

  function Trim(s: string): string {
    TrimRight(TrimLeft(s))
  }

  method TrimView(s: string) returns (r: string)
    ensures r == Trim(s)
  {
    r := s;
    while |r| > 0 && (r[0] == ' ' || r[0] == '\t' || r[0] == '\r' || r[0] == '\n')
      invariant TrimLeft(r) == TrimLeft(s)
      decreases |r|
    {
      r := r[1..];
    }
    while |r| > 0 && (r[|r| - 1] == ' ' || r[|r| - 1] == '\t' || r[|r| - 1] == '\r' || r[|r| - 1] == '\n')
      invariant TrimRight(r) == Trim(s)
      decreases |r|
    {
      r := r[..|r| - 1];
    }
  }

  lemma {:induction false} TrimLeftSplit(s: string) returns (blanks: string)
    ensures AllBlank(blanks) && s == blanks + TrimLeft(s)
    ensures |TrimLeft(s)| > 0 ==> !IsBlank(TrimLeft(s)[0])
    decreases |s|
  {
    if |s| > 0 && IsBlank(s[0]) {
      var rest := TrimLeftSplit(s[1..]);
      blanks := [s[0]] + rest;
    } else {
      blanks := "";
    }
  }

  lemma {:induction false} TrimRightSplit(s: string) returns (blanks: string)
    ensures AllBlank(blanks) && s == TrimRight(s) + blanks
    ensures |TrimRight(s)| > 0 ==> !IsBlank(TrimRight(s)[|TrimRight(s)| - 1])
    decreases |s|
  {
    if |s| > 0 && IsBlank(s[|s| - 1]) {
      var rest := TrimRightSplit(s[..|s| - 1]);
      blanks := rest + [s[|s| - 1]];
    } else {
      blanks := "";
    }
  }

  /** Trimming takes blanks off both ends and leaves none there. */
  lemma TrimSplit(s: string) returns (left: string, right: string)
    ensures AllBlank(left) && AllBlank(right) && s == left + Trim(s) + right
    ensures Trimmed(Trim(s))
  {
    hide TrimLeft, TrimRight;
    left := TrimLeftSplit(s);
    right := TrimRightSplit(TrimLeft(s));
    var t := Trim(s);
    if |t| > 0 {
      assert TrimLeft(s)[0] == t[0];
    }
  }

  lemma {:induction false} TrimLeftBlanks(blanks: string, s: string)
    requires AllBlank(blanks) && (|s| > 0 ==> !IsBlank(s[0]))
    ensures TrimLeft(blanks + s) == s
    decreases |blanks|
  {
    if |blanks| == 0 {
      assert blanks + s == s;
    } else {
      assert (blanks + s)[1..] == blanks[1..] + s;
      TrimLeftBlanks(blanks[1..], s);
    }
  }

  lemma {:induction false} TrimRightBlanks(s: string, blanks: string)
    requires AllBlank(blanks) && (|s| > 0 ==> !IsBlank(s[|s| - 1]))
    ensures TrimRight(s + blanks) == s
    decreases |blanks|
  {
    if |blanks| == 0 {
      assert s + blanks == s;
    } else {
      assert (s + blanks)[..|s + blanks| - 1] == s + blanks[..|blanks| - 1];
      TrimRightBlanks(s, blanks[..|blanks| - 1]);
    }
  }

  /** Blanks around a trimmed text disappear. */
  lemma TrimAround(left: string, s: string, right: string)
    requires AllBlank(left) && AllBlank(right) && Trimmed(s)
    ensures Trim(left + s + right) == s
  {
    if |s| == 0 {
      assert left + s + right == (left + right) + "";
      TrimLeftBlanks(left + right, "");
    } else {
      assert left + s + right == left + (s + right);
      TrimLeftBlanks(left, s + right);
      TrimRightBlanks(s, right);
    }
  }

  lemma TrimNothing(s: string)
    requires Trimmed(s)
    ensures Trim(s) == s
  {}

  lemma TrimTwice(s: string)
    ensures Trim(Trim(s)) == Trim(s)
  {
    var left, right := TrimSplit(s);
    TrimNothing(Trim(s));
  }

  /** Blanks added at the right end do not matter. */
  lemma TrimRightIgnored(s: string, blanks: string)
    requires AllBlank(blanks)
    ensures Trim(s + blanks) == Trim(s)
  {
    var left, right := TrimSplit(s);
    assert s + blanks == left + Trim(s) + (right + blanks);
    TrimAround(left, Trim(s), right + blanks);
  }

  lemma TrimOfTrimRight(s: string)
    ensures Trim(TrimRight(s)) == Trim(s)
  {
    var blanks := TrimRightSplit(s);
    TrimRightIgnored(TrimRight(s), blanks);
  }

  lemma TrimRightTwice(s: string)
    ensures TrimRight(TrimRight(s)) == TrimRight(s)
  {}

  /** Around a character that is not blank the two sides are trimmed separately. */
  lemma TrimPivot(a: string, c: char, b: string)
    requires !IsBlank(c)
    ensures Trim(a + [c] + b) == TrimLeft(a) + [c] + TrimRight(b)
  {
    var left := TrimLeftSplit(a);
    var right := TrimRightSplit(b);
    var core := TrimLeft(a) + [c] + TrimRight(b);
    assert a + [c] + b == left + core + right;
    assert core[0] == if |TrimLeft(a)| > 0 then TrimLeft(a)[0] else c;
    assert core[|core| - 1] == if |TrimRight(b)| > 0 then TrimRight(b)[|TrimRight(b)| - 1] else c;
    TrimAround(left, core, right);
  }

  lemma TrimLeftAllBlank(s: string)
    requires AllBlank(s)
    ensures TrimLeft(s) == ""
  {}
}
