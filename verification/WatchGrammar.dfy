/** The converse: a text that the scanner takes without a syntax error is a printed request. */
module WatchGrammar {
  import opened Search
  import opened Server
  import opened Text
  import opened WatchRequest
  import opened Wrappers

  /** The scanner reaches the end of the text. */
  predicate Scans(expression: string)
    decreases |expression|
  {
    match Next(expression)
    case End => true
    case BadKey => false
    case BadSeparator => false
    case Entry(_, _, rest) => Scans(rest)
  }

  function ItemText(item: Item): string {
    item.gap + Head(item) + ":" + Body(item)
  }

  // ---------------------------------------------------------------- taking a text apart

  lemma {:induction false} EndIsGap(expression: string)
    requires Next(expression) == End
    ensures IsGap(expression)
    decreases |expression|
  {
    hide AfterKey, Trim;
    TrimShorter(expression);
    var left, right := TrimSplit(expression);
    var e := Trim(expression);
    if |e| > 0 {
      EndIsGap(e[1..]);
      assert e == [e[0]] + e[1..];
    }
  }

  /** Where the text of one scanned entry ends: it is the last one, or a comma follows. */
  predicate Cut(expression: string, item: Item, last: bool, rest: string, blanks: string) {
    && AllBlank(blanks)
    && expression == ItemText(item) + (if last then "" else "," + rest + blanks)
    && (last ==> rest == "")
  }

  /** The text after a key, cut into layout, value and the rest. */
  lemma CutValue(key: string, tail: string) returns (item: Item, last: bool, blanks: string)
    requires AfterKey(key, tail).Entry? && '"' !in key
    ensures Good(item) && item.gap == "" && item.key == key && item.value == AfterKey(key, tail).value
    ensures Cut("\"" + key + "\"" + tail, item, last, AfterKey(key, tail).rest, blanks)
  {
    hide Trim;
    var t := AfterKey(key, tail);
    var l2, r2 := TrimSplit(tail);
    var u := Trim(tail)[1..];
    var l3, r3 := TrimSplit(u);
    var v := Trim(u);
    var comma := IndexOf(v, ',');
    last := comma == |v|;
    blanks := r3 + r2;
    assert tail == l2 + ":" + l3 + v + blanks;
    if last {
      item := WholeValue(key, l2, l3, v, blanks);
    } else {
      item := CutAtComma(key, l2, l3, v, comma, blanks);
    }
  }

  lemma WholeValue(key: string, l2: string, l3: string, v: string, blanks: string) returns (item: Item)
    requires '"' !in key && AllBlank(l2) && AllBlank(l3) && Trimmed(v) && ',' !in v && AllBlank(blanks)
    ensures Good(item) && item.gap == "" && item.key == key && item.value == Trim(v[..|v|])
    ensures Cut("\"" + key + "\"" + (l2 + ":" + l3 + v + blanks), item, true, "", blanks)
  {
    hide Trim;
    assert v[..|v|] == v;
    TrimNothing(v);
    item := Item("", key, l2, l3, v, blanks);
    CutLast(item);
  }

  lemma CutAtComma(key: string, l2: string, l3: string, v: string, comma: nat, blanks: string) returns (item: Item)
    requires '"' !in key && AllBlank(l2) && AllBlank(l3) && AllBlank(blanks)
    requires comma < |v| && v[comma] == ',' && forall k :: 0 <= k < comma ==> v[k] != ','
    ensures Good(item) && item.gap == "" && item.key == key && item.value == Trim(v[..comma])
    ensures Cut("\"" + key + "\"" + (l2 + ":" + l3 + v + blanks), item, false, v[comma + 1..], blanks)
  {
    hide Trim;
    var l4, r4 := TrimSplit(v[..comma]);
    var value, rest := Trim(v[..comma]), v[comma + 1..];
    item := Item("", key, l2, l3 + l4, value, r4);
    assert v == v[..comma] + "," + rest;
    SubstringNoComma(v, comma, l4, value, r4);
    CutInner(item, l3, l4, rest, blanks);
    assert l2 + ":" + l3 + v + blanks == l2 + ":" + l3 + (l4 + value + r4 + "," + rest) + blanks;
  }

  lemma CutLast(item: Item)
    requires item.gap == ""
    ensures "\"" + item.key + "\"" + (item.beforeColon + ":" + item.beforeValue + item.value + item.afterValue) == ItemText(item)
  {}

  lemma CutInner(item: Item, l3: string, l4: string, rest: string, blanks: string)
    requires item.gap == "" && item.beforeValue == l3 + l4
    ensures "\"" + item.key + "\"" +
            (item.beforeColon + ":" + l3 + (l4 + item.value + item.afterValue + "," + rest) + blanks) ==
            ItemText(item) + ("," + rest + blanks)
  {}

  lemma SubstringNoComma(v: string, comma: nat, left: string, value: string, right: string)
    requires comma <= |v| && (forall k :: 0 <= k < comma ==> v[k] != ',')
    requires v[..comma] == left + value + right
    ensures ',' !in value
  {
    forall k | 0 <= k < |value| ensures value[k] != ',' {
      assert value[k] == v[|left| + k];
    }
  }

  /** What the scanner does when the trimmed text starts with a quote. */
  lemma QuotedNext(expression: string)
    requires Next(expression).Entry? && Trim(expression)[0] != ','
    ensures var e := Trim(expression);
            |e| > 0 && e[0] == '"' &&
            var quote := IndexOf(e[1..], '"');
            && quote < |e[1..]|
            && Next(expression) == AfterKey(e[1..][..quote], e[1..][quote + 1..])
            && e == "\"" + e[1..][..quote] + "\"" + e[1..][quote + 1..]
  {}

  lemma {:induction false} CutEntry(expression: string) returns (item: Item, last: bool, blanks: string)
    requires Next(expression).Entry?
    ensures var t := Next(expression);
            && Good(item) && item.key == t.key && item.value == t.value
            && Cut(expression, item, last, t.rest, blanks)
    decreases |expression|
  {
    hide AfterKey, Trim, Cut, Good;
    TrimShorter(expression);
    var left, right := TrimSplit(expression);
    var e, t := Trim(expression), Next(expression);
    if e[0] == ',' {
      var inner, innerBlanks;
      inner, last, innerBlanks := CutEntry(e[1..]);
      item, blanks := Widen(e[1..], inner, last, t.rest, innerBlanks, left + ",", right);
      assert expression == left + "," + e[1..] + right;
    } else {
      QuotedNext(expression);
      var quote := IndexOf(e[1..], '"');
      var key, tail := e[1..][..quote], e[1..][quote + 1..];
      var inner, innerBlanks;
      inner, last, innerBlanks := CutValue(key, tail);
      KeyOfEntry(key, tail);
      item, blanks := Widen(e, inner, last, t.rest, innerBlanks, left, right);
    }
  }

  lemma KeyOfEntry(key: string, tail: string)
    ensures AfterKey(key, tail).Entry? ==> AfterKey(key, tail).key == key
  {}

  /** A gap in front and blanks behind can be absorbed by the layout. */
  lemma Widen(text: string, item: Item, last: bool, rest: string, blanks: string, gap: string, right: string)
    returns (item': Item, blanks': string)
    requires Good(item) && Cut(text, item, last, rest, blanks) && IsGap(gap) && AllBlank(right)
    ensures Good(item') && item'.key == item.key && item'.value == item.value
    ensures Cut(gap + text + right, item', last, rest, blanks')
  {
    blanks' := blanks + right;
    item' := item.(gap := gap + item.gap);
    if last {
      item' := item'.(afterValue := item.afterValue + right);
      assert ItemText(item') == gap + ItemText(item) + right;
    } else {
      assert ItemText(item') == gap + ItemText(item);
    }
  }

  // ---------------------------------------------------------------- putting it together

  lemma {:induction false} AppendBlanks(items: seq<Item>, tail: Option<string>, blanks: string)
    returns (items': seq<Item>, tail': Option<string>)
    requires GoodLayout(items, tail) && AllBlank(blanks)
    ensures GoodLayout(items', tail') && Print(items', tail') == Print(items, tail) + blanks
    ensures |items'| > 0 || tail'.Some?
    ensures tail.Some? ==> tail'.Some?
    decreases |items|
  {
    hide Print, Good;
    if |items| == 0 {
      PrintNothing(tail);
      PrintNothing(Some(Print(items, tail) + blanks));
      GapThenBlanks(Print(items, tail), blanks);
      items', tail' := [], Some(Print(items, tail) + blanks);
    } else if |items| == 1 && tail == None {
      var item := items[0];
      assert item in items && items == [item];
      items', tail' := [item.(afterValue := item.afterValue + blanks)], None;
      AppendToLast(item, blanks);
    } else {
      var more;
      more, tail' := AppendBlanks(items[1..], tail, blanks);
      items' := [items[0]] + more;
      assert items[0] in items && items'[1..] == more;
      PrintMore(items, tail);
      PrintMore(items', tail');
    }
  }

  lemma PrintNothing(tail: Option<string>)
    ensures Print([], tail) == if tail.Some? then tail.value else ""
  {}

  lemma GapThenBlanks(gap: string, blanks: string)
    requires IsGap(gap) && AllBlank(blanks)
    ensures IsGap(gap + blanks)
  {}

  /** Blanks behind the only item go to its last place. */
  lemma AppendToLast(item: Item, blanks: string)
    requires Good(item) && AllBlank(blanks)
    ensures var item' := item.(afterValue := item.afterValue + blanks);
            Good(item') && Print([item'], None) == Print([item], None) + blanks
  {}

  lemma PrintMore(items: seq<Item>, tail: Option<string>)
    requires |items| > 1 || (|items| == 1 && tail.Some?)
    ensures Print(items, tail) == ItemText(items[0]) + ("," + Print(items[1..], tail))
  {}

  /** A text that scans is the print of some layout. */
  lemma {:induction false} ScannedIsPrinted(expression: string) returns (items: seq<Item>, tail: Option<string>)
    requires Scans(expression)
    ensures GoodLayout(items, tail) && Print(items, tail) == expression
    decreases |expression|
  {
    hide Next, Good, Cut;
    var t := Next(expression);
    if t == End {
      EndIsGap(expression);
      items, tail := [], Some(expression);
    } else {
      var item, last, blanks := CutEntry(expression);
      if last {
        items, tail := [item], None;
        LastCut(expression, item, t.rest, blanks);
      } else {
        var inner, innerTail := ScannedIsPrinted(t.rest);
        items, tail := Prepend(expression, item, t.rest, blanks, inner, innerTail);
      }
    }
  }

  lemma LastCut(expression: string, item: Item, rest: string, blanks: string)
    requires Good(item) && Cut(expression, item, true, rest, blanks)
    ensures GoodLayout([item], None) && Print([item], None) == expression
  {}

  lemma Prepend(expression: string, item: Item, rest: string, blanks: string, inner: seq<Item>, innerTail: Option<string>)
    returns (items: seq<Item>, tail: Option<string>)
    requires Good(item) && Cut(expression, item, false, rest, blanks)
    requires GoodLayout(inner, innerTail) && Print(inner, innerTail) == rest
    ensures GoodLayout(items, tail) && Print(items, tail) == expression
  {
    var more;
    more, tail := AppendBlanks(inner, innerTail, blanks);
    items := [item] + more;
    assert items[1..] == more;
    assert Print(items, tail) == ItemText(item) + ("," + Print(more, tail));
  }

  lemma {:induction false} PrintedScans(items: seq<Item>, tail: Option<string>)
    requires GoodLayout(items, tail)
    ensures Scans(Print(items, tail))
    decreases |items|
  {
    hide Next, Good;
    if |items| == 0 {
      var gap := Print(items, tail);
      NextSkipsGap(gap, "");
      assert gap + "" == gap;
      NextNothing();
    } else {
      NextReads(items, tail);
      var t := Next(Print(items, tail));
      if |items| == 1 && tail == None {
        NextTrimmed(t.rest, "");
        NextNothing();
      } else {
        PrintedScans(items[1..], tail);
        ScansTrimmed(t.rest, Print(items[1..], tail));
      }
    }
  }

  lemma ScansTrimmed(a: string, b: string)
    requires Trim(a) == Trim(b)
    ensures Scans(a) == Scans(b)
  {}

  /** The language of watch requests: exactly the printed texts are taken without a syntax
      error. */
  lemma ScansIffPrinted(expression: string)
    ensures Scans(expression) <==>
            exists items, tail :: GoodLayout(items, tail) && Print(items, tail) == expression
  {
    if Scans(expression) {
      var items, tail := ScannedIsPrinted(expression);
    }
    if items, tail :| GoodLayout(items, tail) && Print(items, tail) == expression {
      PrintedScans(items, tail);
    }
  }
}
