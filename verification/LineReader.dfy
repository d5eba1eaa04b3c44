/** Framing of a byte stream into lines with a bounded buffer. */
module LineReader {
  import opened Division

  datatype Options = Options(delimiter: char, stripCr: bool, dropOverflow: bool)

  /** The fields of the reader, and the lines handed to the callback so far. */
  datatype State = State(buffer: string, messages: nat, bytes: nat, overflows: nat, lines: seq<string>)

  const FRESH := State("", 0, 0, 0, [])

  function StripCr(line: string, options: Options): string {
    if options.stripCr && |line| > 0 && line[|line| - 1] == '\r' then line[..|line| - 1] else line
  }

  function Emit(s: State, options: Options): State {
    s.(lines := s.lines + [StripCr(s.buffer, options)], messages := s.messages + 1, buffer := "")
  }

  /** One byte. */
  function Consume(s: State, c: char, options: Options, capacity: nat): State {
    if c == options.delimiter then Emit(s, options)
    else if |s.buffer| >= capacity then
      s.(overflows := s.overflows + 1, buffer := if options.dropOverflow then "" else s.buffer)
    else s.(buffer := s.buffer + [c])
  }

  /** A run of bytes. */
  function Feed(s: State, input: string, options: Options, capacity: nat): State {
    if |input| == 0 then s
    else
      var front := Feed(s, input[..|input| - 1], options, capacity);
      Consume(front.(bytes := front.bytes + 1), input[|input| - 1], options, capacity)
  }

  class LineProtocolReader {
    const options: Options
    const buffer: array<char>
    var size: nat
    var messages: nat
    var bytes: nat
    var overflows: nat
    var lines: seq<string>

    ghost predicate Valid()
      reads this
    {
      size <= buffer.Length
    }

    ghost function View(): State
      reads this, buffer
      requires Valid()
    {
      State(buffer[..size], messages, bytes, overflows, lines)
    }

    constructor (options: Options, bufferSize: nat)
      ensures Valid() && fresh(buffer) && this.options == options && buffer.Length == bufferSize
      ensures View() == FRESH
    {
      this.options := options;
      buffer := new char[bufferSize](i => '\0');
      size, messages, bytes, overflows, lines := 0, 0, 0, 0, [];
    }

    method Reset()
      modifies this
      ensures Valid() && lines == old(lines) && View() == FRESH.(lines := lines)
    {
      size, messages, bytes, overflows := 0, 0, 0, 0;
    }

    /** Reads everything that the stream has to offer. */
    method Poll(input: string)
      requires Valid()
      modifies this, buffer
      ensures Valid() && View() == Feed(old(View()), input, options, buffer.Length)
    {
      for i := 0 to |input|
        invariant Valid() && View() == Feed(old(View()), input[..i], options, buffer.Length)
      {
        assert input[..i + 1][..i] == input[..i];
        bytes := bytes + 1;
        ConsumeByte(input[i]);
      }
      assert input[..|input|] == input;
    }

    method ConsumeByte(c: char)
      requires Valid()
      modifies this, buffer
      ensures Valid() && View() == Consume(old(View()), c, options, buffer.Length)
    {
      if c == options.delimiter {
        EmitLine();
        return;
      }
      if size >= buffer.Length {
        overflows := overflows + 1;
        if options.dropOverflow {
          size := 0;
        }
        return;
      }
      ghost var kept := buffer[..size];
      buffer[size] := c;
      size := size + 1;
      assert buffer[..size] == kept + [c];
    }

    method EmitLine()
      requires Valid()
      modifies this
      ensures Valid() && View() == Emit(old(View()), options)
    {
      var len := size;
      if options.stripCr && len > 0 && buffer[len - 1] == '\r' {
        len := len - 1;
      }
      assert buffer[..size][..len] == buffer[..len];
      lines := lines + [buffer[..len]];
      messages := messages + 1;
      size := 0;
    }
  }

  // ---------------------------------------------------------------- chunking

  /** Only the concatenation of the chunks matters. */
  lemma {:induction false} FeedConcat(s: State, a: string, b: string, options: Options, capacity: nat)
    ensures Feed(s, a + b, options, capacity) == Feed(Feed(s, a, options, capacity), b, options, capacity)
    decreases |b|
  {
    if |b| == 0 {
      assert a + b == a;
    } else {
      assert (a + b)[..|a + b| - 1] == a + b[..|b| - 1];
      FeedConcat(s, a, b[..|b| - 1], options, capacity);
    }
  }

  // ---------------------------------------------------------------- what one line becomes

  /** What is left of a text after dropping as many runs of `size` as possible. */
  function Tail(text: string, size: nat): string
    requires size > 0
  {
    text[|text| - |text| % size..]
  }

  function Runs(text: string, size: nat): nat
    requires size > 0
  {
    |text| / size
  }

  /** What is left in the buffer of a line of any length. */
  function Kept(line: string, options: Options, capacity: nat): string {
    if options.dropOverflow then Tail(line, capacity + 1)
    else if |line| <= capacity then line else line[..capacity]
  }

  function Lost(line: string, options: Options, capacity: nat): nat {
    if options.dropOverflow then Runs(line, capacity + 1)
    else if |line| <= capacity then 0 else |line| - capacity
  }

  /** More bytes of a line of which `open` has arrived. */
  lemma {:induction false} MoreOfLine(s: State, open: string, line: string, options: Options, capacity: nat)
    requires s.buffer == Kept(open, options, capacity) && options.delimiter !in line
    ensures var t := Feed(s, line, options, capacity);
            && t.buffer == Kept(open + line, options, capacity) && t.lines == s.lines && t.messages == s.messages
            && t.bytes == s.bytes + |line|
            && t.overflows + Lost(open, options, capacity) == s.overflows + Lost(open + line, options, capacity)
    decreases |line|
  {
    hide Kept, Lost;
    if |line| == 0 {
      assert open + line == open;
    } else {
      var front, c := line[..|line| - 1], line[|line| - 1];
      assert c in line;
      MoreOfLine(s, open, front, options, capacity);
      KeptLostStep(open + front, c, options, capacity);
      assert open + line == open + front + [c];
    }
  }

  lemma NothingKept(options: Options, capacity: nat)
    ensures Kept("", options, capacity) == "" && Lost("", options, capacity) == 0
  {}

  /** Before its delimiter arrives, a line of length L has left its last L mod (capacity + 1)
      bytes and overflowed L div (capacity + 1) times if overflow drops the buffer, or its first
      `capacity` bytes and one overflow for each further byte otherwise. */
  lemma PartialLine(s: State, line: string, options: Options, capacity: nat)
    requires s.buffer == "" && options.delimiter !in line
    ensures Feed(s, line, options, capacity) ==
            s.(buffer := Kept(line, options, capacity), bytes := s.bytes + |line|,
               overflows := s.overflows + Lost(line, options, capacity))
  {
    hide Feed, Kept, Lost;
    NothingKept(options, capacity);
    MoreOfLine(s, "", line, options, capacity);
    assert "" + line == line;
  }

  /** One more byte on a partial line. */
  lemma KeptLostStep(front: string, c: char, options: Options, capacity: nat)
    ensures var kept := Kept(front, options, capacity);
            && Kept(front + [c], options, capacity) ==
               (if |kept| < capacity then kept + [c] else if options.dropOverflow then "" else kept)
            && Lost(front + [c], options, capacity) ==
               Lost(front, options, capacity) + (if |kept| < capacity then 0 else 1)
  {
    hide Tail, Runs;
    TailStep(front, c, capacity + 1);
  }

  lemma TailStep(front: string, c: char, size: nat)
    requires size > 0
    ensures var kept := Tail(front, size);
            && Tail(front + [c], size) == (if |kept| + 1 < size then kept + [c] else "")
            && Runs(front + [c], size) == Runs(front, size) + (if |kept| + 1 < size then 0 else 1)
  {
    DivisionStep(|front|, size);
    CutStep(front, c, size, |front| % size, |front + [c]| % size);
  }

  lemma CutStep(front: string, c: char, size: nat, r: nat, r': nat)
    requires r <= |front| && r' == if r + 1 < size then r + 1 else 0
    ensures var line := front + [c];
            line[|line| - r'..] == if r + 1 < size then front[|front| - r..] + [c] else ""
  {}

  /** A delimited line hands exactly one line to the callback and leaves the buffer empty; `open`
      may have arrived before. */
  lemma RestOfLine(s: State, open: string, line: string, options: Options, capacity: nat)
    requires s.buffer == Kept(open, options, capacity) && options.delimiter !in line
    ensures var t := Feed(s, line + [options.delimiter], options, capacity);
            && t.buffer == "" && t.lines == s.lines + [StripCr(Kept(open + line, options, capacity), options)]
            && t.messages == s.messages + 1 && t.bytes == s.bytes + |line| + 1
            && t.overflows + Lost(open, options, capacity) == s.overflows + Lost(open + line, options, capacity)
  {
    hide Kept, Lost, StripCr;
    MoreOfLine(s, open, line, options, capacity);
    assert (line + [options.delimiter])[..|line|] == line;
  }

  lemma WholeLine(s: State, line: string, options: Options, capacity: nat)
    requires s.buffer == "" && options.delimiter !in line
    ensures Feed(s, line + [options.delimiter], options, capacity) ==
            State("", s.messages + 1, s.bytes + |line| + 1, s.overflows + Lost(line, options, capacity),
                  s.lines + [StripCr(Kept(line, options, capacity), options)])
  {
    hide Feed, Kept, Lost, StripCr;
    NothingKept(options, capacity);
    RestOfLine(s, "", line, options, capacity);
    assert "" + line == line;
  }

  function Joined(lines: seq<string>, delimiter: char): string {
    if |lines| == 0 then "" else Joined(lines[..|lines| - 1], delimiter) + lines[|lines| - 1] + [delimiter]
  }

  /** A line that the reader hands on unchanged. */
  predicate Readable(line: string, options: Options, capacity: nat) {
    && options.delimiter !in line
    && |line| <= capacity
    && !(options.stripCr && |line| > 0 && line[|line| - 1] == '\r')
  }

  /** Reading back lines that fit the buffer returns exactly those lines, for any state with an
      empty buffer and, by `FeedConcat`, any chunking. */
  lemma {:induction false} ReadBack(s: State, lines: seq<string>, options: Options, capacity: nat)
    requires s.buffer == ""
    requires forall line :: line in lines ==> Readable(line, options, capacity)
    ensures var t := Feed(s, Joined(lines, options.delimiter), options, capacity);
            t.lines == s.lines + lines && t.buffer == "" && t.overflows == s.overflows
    decreases |lines|
  {
    if |lines| == 0 {
      assert s.lines + lines == s.lines;
    } else {
      var front, line := lines[..|lines| - 1], lines[|lines| - 1];
      hide Feed, Readable;
      assert line in lines;
      ReadBack(s, front, options, capacity);
      ReadOneMore(s, Joined(front, options.delimiter), line, options, capacity);
      assert lines == front + [line];
      assert s.lines + lines == s.lines + front + [line];
    }
  }

  lemma ReadOneMore(s: State, before: string, line: string, options: Options, capacity: nat)
    requires Feed(s, before, options, capacity).buffer == "" && Readable(line, options, capacity)
    ensures var mid := Feed(s, before, options, capacity);
            var t := Feed(s, before + line + [options.delimiter], options, capacity);
            t.lines == mid.lines + [line] && t.buffer == "" && t.overflows == mid.overflows
  {
    var text := line + [options.delimiter];
    assert before + line + [options.delimiter] == before + text;
    FeedConcat(s, before, text, options, capacity);
    KeptReadable(line, options, capacity);
    WholeLine(Feed(s, before, options, capacity), line, options, capacity);
  }

  lemma KeptReadable(line: string, options: Options, capacity: nat)
    requires Readable(line, options, capacity)
    ensures options.delimiter !in line
    ensures StripCr(Kept(line, options, capacity), options) == line && Lost(line, options, capacity) == 0
  {}

  // ---------------------------------------------------------------- the law in plain terms

  /** Before its delimiter arrives, a line of length L leaves its last L mod (capacity + 1) bytes
      and has overflowed L div (capacity + 1) times if overflow drops the buffer; otherwise it
      leaves its first `capacity` bytes and has overflowed once for each further byte. */
  lemma OverflowLaw(s: State, line: string, options: Options, capacity: nat)
    requires s.buffer == "" && options.delimiter !in line
    ensures var n, t := |line|, Feed(s, line, options, capacity);
            && t.lines == s.lines && t.bytes == s.bytes + n
            && (options.dropOverflow ==>
                  t.buffer == line[n - n % (capacity + 1)..] && t.overflows == s.overflows + n / (capacity + 1))
            && (!options.dropOverflow ==>
                  if n <= capacity then t.buffer == line && t.overflows == s.overflows
                  else t.buffer == line[..capacity] && t.overflows == s.overflows + n - capacity)
  {
    hide Feed;
    PartialLine(s, line, options, capacity);
  }

  /** The delimiter hands on what has been left, without its last character if that is a CR and
      stripping is on. */
  lemma DelimiterLaw(s: State, options: Options, capacity: nat)
    ensures var t := Feed(s, [options.delimiter], options, capacity);
            && t.buffer == "" && t.messages == s.messages + 1 && t.overflows == s.overflows
            && |t.lines| == |s.lines| + 1 && t.lines[..|s.lines|] == s.lines
            && var line := t.lines[|s.lines|];
               if options.stripCr && |s.buffer| > 0 && s.buffer[|s.buffer| - 1] == '\r' then line + "\r" == s.buffer
               else line == s.buffer
  {
    assert [options.delimiter][..0] == "";
    assert Feed(s, "", options, capacity) == s;
  }

  lemma FeedSnoc(s: State, text: string, c: char, options: Options, capacity: nat)
    ensures Feed(s, text + [c], options, capacity) == Feed(Feed(s, text, options, capacity), [c], options, capacity)
  {
    FeedConcat(s, text, [c], options, capacity);
  }

  /** A line that ends in CR and delimiter is handed on without the CR exactly if stripping is on,
      whatever it ends in otherwise. */
  lemma CrLine(s: State, text: string, options: Options, capacity: nat)
    requires s.buffer == "" && options.delimiter != '\r' && options.delimiter !in text && |text| + 1 <= capacity
    ensures var t := Feed(s, text + "\r" + [options.delimiter], options, capacity);
            && t.lines == s.lines + [if options.stripCr then text else text + "\r"]
            && t.buffer == "" && t.overflows == s.overflows
  {
    hide Feed;
    var line := text + "\r";
    OverflowLaw(s, line, options, capacity);
    FitsWhole(|line|, capacity);
    FeedSnoc(s, line, options.delimiter, options, capacity);
    var mid := Feed(s, line, options, capacity);
    assert mid.buffer == line;
    DelimiterLaw(mid, options, capacity);
    var t := Feed(mid, [options.delimiter], options, capacity);
    assert t.lines == mid.lines + [t.lines[|mid.lines|]];
    if options.stripCr {
      SameFront(t.lines[|mid.lines|], text);
    }
  }

  lemma SameFront(a: string, b: string)
    requires a + "\r" == b + "\r"
    ensures a == b
  {
    assert a == (a + "\r")[..|a|] && |a + "\r"| == |a| + 1 && |b + "\r"| == |b| + 1;
    assert b == (b + "\r")[..|b|];
  }

  lemma FitsWhole(n: nat, capacity: nat)
    requires n <= capacity
    ensures n % (capacity + 1) == n && n / (capacity + 1) == 0
  {
    QuotientUnique(n, capacity + 1, 0, n);
  }

  function JoinedCr(lines: seq<string>, delimiter: char): string {
    if |lines| == 0 then "" else JoinedCr(lines[..|lines| - 1], delimiter) + (lines[|lines| - 1] + "\r" + [delimiter])
  }

  lemma JoinedCrLast(front: seq<string>, line: string, delimiter: char)
    ensures JoinedCr(front + [line], delimiter) == JoinedCr(front, delimiter) + (line + "\r" + [delimiter])
  {
    assert (front + [line])[..|front|] == front;
  }

  lemma ReadOneMoreCr(s: State, before: string, line: string, options: Options, capacity: nat)
    requires options.stripCr && options.delimiter != '\r' && options.delimiter !in line && |line| + 1 <= capacity
    requires Feed(s, before, options, capacity).buffer == ""
    ensures var mid := Feed(s, before, options, capacity);
            var t := Feed(s, before + (line + "\r" + [options.delimiter]), options, capacity);
            t.lines == mid.lines + [line] && t.buffer == "" && t.overflows == mid.overflows
  {
    hide Feed;
    FeedConcat(s, before, line + "\r" + [options.delimiter], options, capacity);
    CrLine(Feed(s, before, options, capacity), line, options, capacity);
  }

  /** Lines joined with CR and delimiter are read back, whatever they end in. */
  lemma {:induction false} ReadBackCr(s: State, lines: seq<string>, options: Options, capacity: nat)
    requires s.buffer == "" && options.stripCr && options.delimiter != '\r'
    requires forall line :: line in lines ==> options.delimiter !in line && |line| + 1 <= capacity
    ensures var t := Feed(s, JoinedCr(lines, options.delimiter), options, capacity);
            t.lines == s.lines + lines && t.buffer == "" && t.overflows == s.overflows
    decreases |lines|
  {
    if |lines| == 0 {
      assert s.lines + lines == s.lines;
    } else {
      var front, line := lines[..|lines| - 1], lines[|lines| - 1];
      assert line in lines && lines == front + [line];
      ReadBackCr(s, front, options, capacity);
      hide Feed, JoinedCr;
      JoinedCrLast(front, line, options.delimiter);
      ReadOneMoreCr(s, JoinedCr(front, options.delimiter), line, options, capacity);
      assert s.lines + lines == s.lines + front + [line];
    }
  }
}
