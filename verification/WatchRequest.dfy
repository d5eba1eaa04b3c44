/** The watch-request scanner is the inverse of a printer: it accepts exactly the texts that some
    layout of keys and values prints, and performs exactly those entries. */
module WatchRequest {
  import opened Decimal
  import opened Fields
  import opened Search
  import opened Server
  import opened Text
  import opened Values
  import opened Wrappers

  /** One printed entry: the strings around the key and the value are layout. */
  datatype Item = Item(gap: string, key: string, beforeColon: string, beforeValue: string, value: string, afterValue: string)

  predicate IsGap(s: string) {
    forall i :: 0 <= i < |s| ==> IsBlank(s[i]) || s[i] == ','
  }

  predicate Good(item: Item) {
    && IsGap(item.gap) && AllBlank(item.beforeColon) && AllBlank(item.beforeValue) && AllBlank(item.afterValue)
    && '"' !in item.key
    && ',' !in item.value && Trimmed(item.value)
  }

  function Head(item: Item): string {
    "\"" + item.key + "\"" + item.beforeColon
  }

  function Body(item: Item): string {
    item.beforeValue + item.value + item.afterValue
  }

  /** Entries are separated by at least one comma; after the last one there may be a comma and
      a further gap. */
  function Print(items: seq<Item>, tail: Option<string>): string
    decreases |items|, 1
  {
    if |items| == 0 then (match tail case None => "" case Some(t) => t)
    else items[0].gap + Head(items[0]) + ":" + Body(items[0]) + Remainder(items, tail)
  }

  function Remainder(items: seq<Item>, tail: Option<string>): string
    requires |items| > 0
    decreases |items|, 0
  {
    if |items| == 1 && tail == None then "" else "," + Print(items[1..], tail)
  }

  predicate GoodLayout(items: seq<Item>, tail: Option<string>) {
    (forall item :: item in items ==> Good(item)) && (tail.Some? ==> IsGap(tail.value))
  }

  /** The entries performed in order up to the first one that is rejected. */
  function Execute(r: Registry, items: seq<Item>, now: nat): Reply
    decreases |items|
  {
    if |items| == 0 then Reply(r, "")
    else
      var (reply, stop) := Perform(r, items[0].key, items[0].value, now);
      if stop then reply
      else
        var more := Execute(reply.reg, items[1..], now);
        Reply(more.reg, reply.out + more.out)
  }

  // ---------------------------------------------------------------- scanning what was printed

  lemma NextTrimmed(a: string, b: string)
    requires Trim(a) == Trim(b)
    ensures Next(a) == Next(b)
  {}

  lemma PerformAllTrimmed(r: Registry, a: string, b: string, now: nat)
    requires Trim(a) == Trim(b)
    ensures PerformAll(r, a, now) == PerformAll(r, b, now)
  {
    hide Next, Perform;
    NextTrimmed(a, b);
  }

  /** Blanks and commas in front are skipped. */
  lemma {:induction false} NextSkipsGap(gap: string, s: string)
    requires IsGap(gap)
    ensures Next(gap + s) == Next(s)
    decreases |gap|
  {
    hide AfterKey;
    if |gap| == 0 {
      assert gap + s == s;
    } else {
      var rest := gap[1..] + s;
      assert gap + s == [gap[0]] + rest;
      NextSkipsGap(gap[1..], s);
      if gap[0] == ',' {
        assert [gap[0]] + rest == "" + [','] + rest;
        TrimPivot("", ',', rest);
        TrimOfTrimRight(rest);
        NextTrimmed(TrimRight(rest), rest);
      } else {
        TrimLeftIgnored([gap[0]], rest);
        NextTrimmed([gap[0]] + rest, rest);
      }
    }
  }

  lemma TrimLeftIgnored(blanks: string, s: string)
    requires AllBlank(blanks)
    ensures Trim(blanks + s) == Trim(s)
  {
    var left, right := TrimSplit(s);
    assert blanks + s == (blanks + left) + Trim(s) + right;
    TrimAround(blanks + left, Trim(s), right);
  }

  /** After the key only the trimmed rest counts. */
  lemma AfterKeyTrims(key: string, beforeColon: string, q: string)
    requires AllBlank(beforeColon)
    ensures var v, t := Trim(q), AfterKey(key, beforeColon + ":" + TrimRight(q));
            t == Entry(key, Trim(v[..IndexOf(v, ',')]), if IndexOf(v, ',') == |v| then "" else v[IndexOf(v, ',') + 1..])
  {
    hide Trim, TrimLeft, TrimRight, IndexOf;
    TrimPivot(beforeColon, ':', TrimRight(q));
    TrimLeftAllBlank(beforeColon);
    TrimRightTwice(q);
    var e := Trim(beforeColon + ":" + TrimRight(q));
    assert e == ":" + TrimRight(q);
    assert e[1..] == TrimRight(q);
    TrimOfTrimRight(q);
  }

  /** The value part of an entry. */
  lemma AfterKeyReads(item: Item, more: string)
    requires Good(item) && (more == "" || more[0] == ',')
    ensures AfterKey(item.key, item.beforeColon + ":" + TrimRight(Body(item) + more)) ==
            Entry(item.key, item.value, if more == "" then "" else TrimRight(more[1..]))
  {
    hide AfterKey;
    var q := Body(item) + more;
    AfterKeyTrims(item.key, item.beforeColon, q);
    var v := Trim(q);
    if more == "" {
      TrimAround(item.beforeValue, item.value, item.afterValue);
      TrimNothing(item.value);
      assert q == Body(item);
      IndexOfNone(v, ',');
      assert v[..|v|] == v;
    } else {
      var front, after := TrimLeft(Body(item)), more[1..];
      assert q == Body(item) + "," + after;
      TrimPivot(Body(item), ',', after);
      TrimValue(item);
      IndexOfSplit(front, ',', TrimRight(after));
      assert v[..|front|] == front;
      assert v[|front| + 1..] == TrimRight(after);
    }
  }

  lemma TrimValue(item: Item)
    requires Good(item)
    ensures ',' !in TrimLeft(Body(item)) && Trim(TrimLeft(Body(item))) == item.value
  {
    hide Trim, TrimLeft;
    var blanks := TrimLeftSplit(Body(item));
    TrimAround(item.beforeValue, item.value, item.afterValue);
    TrimLeftIgnored(blanks, TrimLeft(Body(item)));
    forall i | 0 <= i < |TrimLeft(Body(item))| ensures TrimLeft(Body(item))[i] != ',' {
      assert TrimLeft(Body(item))[i] == Body(item)[|blanks| + i];
    }
  }

  /** A quoted key is taken off the front. */
  lemma NextQuoted(item: Item, q: string)
    requires '"' !in item.key && AllBlank(item.beforeColon)
    ensures Next(Head(item) + ":" + q) == AfterKey(item.key, item.beforeColon + ":" + TrimRight(q))
  {
    hide AfterKey, Next;
    var rest := item.beforeColon + ":" + TrimRight(q);
    var s := Head(item) + ":" + q;
    TrimPivot(Head(item), ':', q);
    assert TrimLeft(Head(item)) == Head(item);
    assert Trim(s) == "\"" + item.key + "\"" + rest;
    NextAtQuote(s, item.key, rest);
  }

  lemma NextAtQuote(s: string, key: string, rest: string)
    requires '"' !in key && Trim(s) == "\"" + key + "\"" + rest
    ensures Next(s) == AfterKey(key, rest)
  {
    hide AfterKey, Trim;
    CutKey(key, rest);
    assert Trim(s)[1..] == key + "\"" + rest;
  }

  lemma CutKey(key: string, rest: string)
    requires '"' !in key
    ensures var k := key + "\"" + rest;
            IndexOf(k, '"') == |key| && k[..|key|] == key && k[|key| + 1..] == rest
  {
    IndexOfSplit(key, '"', rest);
  }

  /** The scanner takes the first printed entry and leaves the rest. */
  lemma NextReads(items: seq<Item>, tail: Option<string>)
    requires |items| > 0 && GoodLayout(items, tail)
    ensures var t := Next(Print(items, tail));
            && t.Entry? && t.key == items[0].key && t.value == items[0].value
            && Trim(t.rest) == Trim(if |items| == 1 && tail == None then "" else Print(items[1..], tail))
  {
    hide AfterKey, Next, Trim, TrimRight, Good;
    var item, more := items[0], Remainder(items, tail);
    assert Good(item) by { assert item in items; }
    GoodParts(item);
    var q := Body(item) + more;
    var s := Head(item) + ":" + q;
    assert Print(items, tail) == item.gap + s;
    NextSkipsGap(item.gap, s);
    NextQuoted(item, q);
    AfterKeyReads(item, more);
    if more != "" {
      assert more[1..] == Print(items[1..], tail);
      TrimOfTrimRight(more[1..]);
    }
  }

  lemma GoodParts(item: Item)
    requires Good(item)
    ensures IsGap(item.gap) && AllBlank(item.beforeColon) && '"' !in item.key
  {}

  /** Printed requests are performed entry by entry, whatever the layout. */
  lemma {:induction false} PrintedIsPerformed(r: Registry, items: seq<Item>, tail: Option<string>, now: nat)
    requires GoodLayout(items, tail)
    ensures PerformAll(r, Print(items, tail), now) == Execute(r, items, now)
    decreases |items|
  {
    hide Perform, Next;
    if |items| == 0 {
      var gap := Print(items, tail);
      NextSkipsGap(gap, "");
      assert gap + "" == gap;
      NextNothing();
    } else {
      NextReads(items, tail);
      var t := Next(Print(items, tail));
      var (reply, stop) := Perform(r, t.key, t.value, now);
      if !stop {
        if |items| == 1 && tail == None {
          PerformAllTrimmed(reply.reg, t.rest, "", now);
          NextNothing();
        } else {
          PerformAllTrimmed(reply.reg, t.rest, Print(items[1..], tail), now);
          PrintedIsPerformed(reply.reg, items[1..], tail, now);
        }
      }
    }
  }

  lemma NextNothing()
    ensures Next("") == End
  {}

  /** The same for whole watch requests. */
  lemma PrintedRequest(r: Registry, items: seq<Item>, tail: Option<string>, now: nat)
    requires GoodLayout(items, tail)
    ensures HandleWatch(r, "{" + Print(items, tail) + "}", now) == Execute(r, items, now)
  {
    var inside := Print(items, tail);
    var e := "{" + inside + "}";
    TrimNothing(e);
    assert e[1..|e| - 1] == inside;
    PrintedIsPerformed(r, items, tail, now);
  }
}
