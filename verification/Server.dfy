/** The server: requests arrive as lines, replies and value changes leave as text. */
module Server {
  import opened DataModel
  import opened Decimal
  import opened Fields
  import opened Search
  import opened Text
  import opened Values
  import opened Wrappers

  const INVALID_PERIOD := "invalid watch period"
  const UNKNOWN_VALUE := "invalid unknown value"
  const INVALID_KEY := "invalid watch key"
  const INVALID_SEPARATOR := "invalid watch separator"
  const INVALID_WATCH := "invalid watch request"
  const INVALID_SET := "invalid set"
  const MISSING_EQUALS := "invalid request: missing '='"
  const NO_REGISTRATION := "remote value registration not implemented"

  datatype Reply = Reply(reg: Registry, out: string)

  function ErrorLine(message: string): string {
    "error=" + message + "\n"
  }

  // ---------------------------------------------------------------- metadata

  function InfoJson(f: Field): string {
    "{\"type\":\"" + TypeName(f) + "\"" + (if Writable(f) then ",\"writable\":true" else "") + "}"
  }

  function EntriesJson(i: nat): string
    requires i <= FIELD_COUNT
    decreases FIELD_COUNT - i
  {
    if i == FIELD_COUNT then ""
    else (if i > 0 then "," else "") + "\"" + Name(FieldAt(i)) + "\":" + InfoJson(FieldAt(i)) + EntriesJson(i + 1)
  }

  function ValuesLine(): string {
    "values={" + EntriesJson(0) + "}\n"
  }

  // ---------------------------------------------------------------- watch requests

  /** One round of the scanner over the inside of a watch request. */
  datatype Token = End | BadKey | BadSeparator | Entry(key: string, value: string, rest: string)

  function Next(expression: string): (t: Token)
    ensures t.Entry? ==> |t.rest| < |expression|
    decreases |expression|
  {
    TrimShorter(expression);
    var e := Trim(expression);
    if |e| == 0 then End
    else if e[0] == ',' then Next(e[1..])
    else if e[0] != '"' then BadKey
    else
      var quote := IndexOf(e[1..], '"');
      if quote == |e[1..]| then BadKey
      else AfterKey(e[1..][..quote], e[1..][quote + 1..])
  }

  function AfterKey(key: string, tail: string): (t: Token)
    ensures t.BadSeparator? || t.Entry?
    ensures t.Entry? ==> |t.rest| < |tail|
  {
    TrimShorter(tail);
    var e := Trim(tail);
    if |e| == 0 || e[0] != ':' then BadSeparator
    else
      TrimShorter(e[1..]);
      var v := Trim(e[1..]);
      var comma := IndexOf(v, ',');
      Entry(key, Trim(v[..comma]), if comma == |v| then "" else v[comma + 1..])
  }

  lemma TrimShorter(s: string)
    ensures |Trim(s)| <= |s|
  {
    var left, right := TrimSplit(s);
  }

  /** The number of a request, read after trimming. */
  function ParsePeriod(value: string): Option<real> {
    if value == "true" then Some(0.0) else ParseReal(Trim(value))
  }

  /** The effect of one entry, and whether it ends the request. */
  function Perform(r: Registry, key: string, value: string, now: nat): (Reply, bool) {
    if key == "values" then (Reply(r, if value == "false" then "" else ValuesLine()), false)
    else if value == "false" then (Reply(UnwatchName(r, key).0, ""), false)
    else match ParsePeriod(value)
      case None => (Reply(r, ErrorLine(INVALID_PERIOD)), true)
      case Some(period) =>
        var (r', line, ok) := WatchName(r, key, period, now);
        if ok then (Reply(r', line), false) else (Reply(r', line + ErrorLine(UNKNOWN_VALUE)), true)
  }

  function PerformAll(r: Registry, expression: string, now: nat): Reply
    decreases |expression|
  {
    match Next(expression)
    case End => Reply(r, "")
    case BadKey => Reply(r, ErrorLine(INVALID_KEY))
    case BadSeparator => Reply(r, ErrorLine(INVALID_SEPARATOR))
    case Entry(key, value, rest) =>
      var (reply, stop) := Perform(r, key, value, now);
      if stop then reply
      else
        var more := PerformAll(reply.reg, rest, now);
        Reply(more.reg, reply.out + more.out)
  }

  predicate Braced(e: string) {
    |e| >= 2 && e[0] == '{' && e[|e| - 1] == '}'
  }

  function HandleWatch(r: Registry, expression: string, now: nat): Reply {
    var e := Trim(expression);
    if !Braced(e) then Reply(r, ErrorLine(INVALID_WATCH)) else PerformAll(r, e[1..|e| - 1], now)
  }

  function HandleAssignment(r: Registry, name: string, value: string): Reply
    requires |r.dirty| == FIELD_COUNT
  {
    var (r', ok) := SetFromWire(r, name, value, true);
    Reply(r', if ok then "" else ErrorLine(INVALID_SET))
  }

  function HandleLine(r: Registry, line: string, now: nat): Reply
    requires |r.dirty| == FIELD_COUNT
  {
    var l := Trim(line);
    var eq := IndexOf(l, '=');
    if |l| == 0 then Reply(r, "")
    else if eq == |l| then Reply(r, ErrorLine(MISSING_EQUALS))
    else
      var name, value := Trim(l[..eq]), Trim(l[eq + 1..]);
      if name == "watch" then HandleWatch(r, value, now)
      else if name == "values" then Reply(r, ErrorLine(NO_REGISTRATION))
      else if name == "udp_port" then Reply(r, "")
      else HandleAssignment(r, name, value)
  }

  /** All changed fields, then all due ones. */
  function Polled(r: Registry, now: nat): Reply
    requires |r.dirty| == FIELD_COUNT
  {
    var (r1, changed) := EmitChanged(r);
    var (r2, due) := EmitDue(r1, now);
    Reply(r2, changed + due)
  }

  function Started(m: Model): (r: Registry)
    ensures |r.dirty| == FIELD_COUNT
  {
    var r := Registry(m.(server := m.server.(running := true)), seq(MAX_WATCHES, i => EMPTY_WATCH), AllClean());
    var (r1, _) := SetField(r, ServerRunning, BooleanValue(true));
    SetField(r1, ServerPort, RealValue(m.server.port as real)).0
  }

  class PypilotServer {
    const values: ValueRegistry

    constructor (state: PypilotState)
      modifies state
      ensures fresh(values) && values.Valid() && fresh(values.watches) && fresh(values.dirty)
      ensures values.state == state && values.View() == Started(old(state.model))
    {
      values := new ValueRegistry(state);
      new;
      state.model := state.model.(server := state.model.server.(running := true));
      var _ := values.SetBool(ServerRunning, true);
      var _ := values.SetReal(ServerPort, state.model.server.port as real);
    }

    method Error(message: string, out: StringValueWriter)
      modifies out
      ensures out.text == old(out.text) + ErrorLine(message)
    {
      out.Write("error=");
      out.Write(message);
      out.Write("\n");
    }

    method Poll(now: nat, out: StringValueWriter)
      requires values.Valid()
      modifies values.watches, values.dirty, out
      ensures var reply := Polled(old(values.View()), now);
              values.View() == reply.reg && out.text == old(out.text) + reply.out
    {
      hide EmitChanged, EmitDue;
      ghost var start := out.text;
      values.EmitChangedWatches(out);
      ghost var mid := out.text;
      values.EmitDueWatches(now, out);
    }

    /** One entry of a watch request; `stop` tells that the request is over. */
    method PerformEntry(key: string, value: string, now: nat, out: StringValueWriter) returns (stop: bool)
      requires values.Valid()
      modifies values.watches, out
      ensures var (reply, end) := Perform(old(values.View()), key, value, now);
              values.View() == reply.reg && out.text == old(out.text) + reply.out && stop == end
    {
      hide ValuesLine, WatchName, UnwatchName, ErrorLine;
      if key == "values" {
        if value != "false" {
          out.Write(ValuesLine());
        }
        return false;
      }
      if value == "false" {
        var _ := values.RemoveWatch(key);
        return false;
      }
      var period := ParsePeriod(value);
      if period == None {
        Error(INVALID_PERIOD, out);
        return true;
      }
      var ok := values.AddWatch(key, period.value, now, out);
      if !ok {
        Error(UNKNOWN_VALUE, out);
      }
      return !ok;
    }

    method HandleWatchRequest(request: string, now: nat, out: StringValueWriter)
      requires values.Valid()
      modifies values.watches, out
      ensures var reply := HandleWatch(old(values.View()), request, now);
              values.View() == reply.reg && out.text == old(out.text) + reply.out
    {
      hide ErrorLine, Perform;
      var expression := TrimView(request);
      if |expression| < 2 || expression[0] != '{' || expression[|expression| - 1] != '}' {
        Error(INVALID_WATCH, out);
        return;
      }
      expression := expression[1..|expression| - 1];
      ghost var all := PerformAll(values.View(), expression, now);
      while true
        invariant PerformAll(values.View(), expression, now).reg == all.reg
        invariant out.text + PerformAll(values.View(), expression, now).out == old(out.text) + all.out
        decreases |expression|
      {
        ghost var text, before, more := out.text, values.View(), PerformAll(values.View(), expression, now);
        var token := ScanEntry(expression);
        match token
        case End =>
          return;
        case BadKey =>
          Error(INVALID_KEY, out);
          return;
        case BadSeparator =>
          Error(INVALID_SEPARATOR, out);
          return;
        case Entry(key, value, rest) =>
          var stop := PerformEntry(key, value, now, out);
          if stop {
            return;
          }
          ghost var reply := Perform(before, key, value, now).0;
          assert text + (reply.out + PerformAll(reply.reg, rest, now).out) == out.text + PerformAll(reply.reg, rest, now).out;
          expression := rest;
      }
    }

    /** Skips blanks and commas, then takes one key and its value off the front. */
    method ScanEntry(request: string) returns (token: Token)
      ensures token == Next(request)
    {
      var expression := request;
      while true
        invariant Next(expression) == Next(request)
        decreases |expression|
      {
        TrimShorter(expression);
        TrimTwice(expression);
        expression := TrimView(expression);
        if |expression| == 0 {
          return End;
        }
        if expression[0] != ',' {
          break;
        }
        expression := expression[1..];
      }
      if expression[0] != '"' {
        return BadKey;
      }
      expression := expression[1..];
      var keyEnd := IndexOf(expression, '"');
      if keyEnd == |expression| {
        return BadKey;
      }
      var key := expression[..keyEnd];
      expression := TrimView(expression[keyEnd + 1..]);
      if |expression| == 0 || expression[0] != ':' {
        return BadSeparator;
      }
      expression := TrimView(expression[1..]);
      var comma := IndexOf(expression, ',');
      var value := TrimView(expression[..comma]);
      token := Entry(key, value, if comma == |expression| then "" else expression[comma + 1..]);
    }

    method HandleRequest(request: string, now: nat, out: StringValueWriter)
      requires values.Valid()
      modifies values.state, values.watches, values.dirty, out
      ensures var reply := HandleLine(old(values.View()), request, now);
              values.View() == reply.reg && out.text == old(out.text) + reply.out
    {
      hide ErrorLine, HandleWatch, SetFromWire;
      var line := TrimView(request);
      if |line| == 0 {
        return;
      }
      var eq := IndexOf(line, '=');
      if eq == |line| {
        Error(MISSING_EQUALS, out);
        return;
      }
      var name := TrimView(line[..eq]);
      var value := TrimView(line[eq + 1..]);
      if name == "watch" {
        HandleWatchRequest(value, now, out);
      } else if name == "values" {
        Error(NO_REGISTRATION, out);
      } else if name != "udp_port" {
        var ok := values.SetWire(name, value, true);
        if !ok {
          Error(INVALID_SET, out);
        }
      }
    }
  }
}
