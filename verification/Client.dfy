/** The client: a table of watches to replay, a bounded queue of lines for the time without a
    connection, and the requests that use them. */
module Client {
  import opened ClientText
  import opened Decimal
  import opened Text
  import opened Wrappers

  const MAX_CLIENT_WATCHES := 32
  const MAX_PENDING_LINES := 16
  const MAX_NAME_SIZE := 64

  datatype ClientWatch = ClientWatch(active: bool, name: string, period: real)

  const EMPTY_CLIENT_WATCH := ClientWatch(false, "", 0.0)

  datatype PendingLine = PendingLine(active: bool, text: string)

  const EMPTY_LINE := PendingLine(false, "")

  /** The connection: whether it is up, which of the coming writes it will accept (all of them
      once the list is used up), and every line it has accepted. */
  datatype Link = Link(up: bool, accepts: seq<bool>, sent: seq<string>)

  datatype ClientState = ClientState(watches: seq<ClientWatch>, pending: seq<PendingLine>, link: Link)

  // ---------------------------------------------------------------- writing and queueing

  function Send(l: Link, line: string): (Link, bool) {
    if |l.accepts| > 0 && !l.accepts[0] then (l.(accepts := l.accepts[1..]), false)
    else (l.(accepts := if |l.accepts| > 0 then l.accepts[1..] else [], sent := l.sent + [line]), true)
  }

  function FreeLine(ps: seq<PendingLine>, from: nat := 0): (i: nat)
    requires from <= |ps|
    ensures from <= i <= |ps|
    ensures forall k :: from <= k < i ==> ps[k].active
    ensures i < |ps| ==> !ps[i].active
    decreases |ps| - from
  {
    if from == |ps| || !ps[from].active then from else FreeLine(ps, from + 1)
  }

  function QueueLine(c: ClientState, line: string): (ClientState, bool) {
    var i := FreeLine(c.pending);
    if |line| >= MAX_LINE_SIZE || i == |c.pending| then (c, false)
    else (c.(pending := c.pending[i := PendingLine(true, line)]), true)
  }

  function QueueOrWrite(c: ClientState, line: string): (ClientState, bool) {
    if !c.link.up then QueueLine(c, line)
    else
      var (link, ok) := Send(c.link, line);
      if ok then (c.(link := link), true) else QueueLine(c.(link := link), line)
  }

  /** Offers the pending lines from slot `i` on to the connection. */
  function FlushFrom(c: ClientState, i: nat): (c': ClientState)
    requires i <= |c.pending|
    ensures |c'.pending| == |c.pending|
    decreases |c.pending| - i
  {
    if i == |c.pending| then c
    else if !c.pending[i].active then FlushFrom(c, i + 1)
    else
      var (link, ok) := Send(c.link, c.pending[i].text);
      FlushFrom(ClientState(c.watches, if ok then c.pending[i := EMPTY_LINE] else c.pending, link), i + 1)
  }

  function FlushPending(c: ClientState): ClientState {
    if c.link.up then FlushFrom(c, 0) else c
  }

  function FirstPending(ps: seq<PendingLine>, from: nat := 0): (i: nat)
    requires from <= |ps|
    ensures from <= i <= |ps|
    ensures forall k :: from <= k < i ==> !ps[k].active
    ensures i < |ps| ==> ps[i].active
    decreases |ps| - from
  {
    if from == |ps| || ps[from].active then from else FirstPending(ps, from + 1)
  }

  function PopOutgoing(c: ClientState): (ClientState, Option<string>) {
    var i := FirstPending(c.pending);
    if i == |c.pending| then (c, None)
    else (c.(pending := c.pending[i := EMPTY_LINE]), Some(c.pending[i].text))
  }

  // ---------------------------------------------------------------- watches

  /** Names are stored in 64 bytes, terminator included. */
  function StoredName(name: string): string {
    Fit(name, MAX_NAME_SIZE)
  }

  function FindClientWatch(ws: seq<ClientWatch>, name: string, from: nat := 0): (i: nat)
    requires from <= |ws|
    ensures from <= i <= |ws|
    ensures forall k :: from <= k < i ==> !(ws[k].active && ws[k].name == name)
    ensures i < |ws| ==> ws[i].active && ws[i].name == name
    decreases |ws| - from
  {
    if from == |ws| || (ws[from].active && ws[from].name == name) then from else FindClientWatch(ws, name, from + 1)
  }

  function FreeClientWatch(ws: seq<ClientWatch>, from: nat := 0): (i: nat)
    requires from <= |ws|
    ensures from <= i <= |ws|
    ensures forall k :: from <= k < i ==> ws[k].active
    ensures i < |ws| ==> !ws[i].active
    decreases |ws| - from
  {
    if from == |ws| || !ws[from].active then from else FreeClientWatch(ws, from + 1)
  }

  /** A watch that finds no slot is forgotten. */
  function Remembered(ws: seq<ClientWatch>, name: string, period: real): (ws': seq<ClientWatch>)
    ensures |ws'| == |ws|
  {
    var i := FindClientWatch(ws, name);
    if i < |ws| then ws[i := ws[i].(period := period)]
    else
      var j := FreeClientWatch(ws);
      if j < |ws| then ws[j := ClientWatch(true, StoredName(name), period)] else ws
  }

  function Forgotten(ws: seq<ClientWatch>, name: string): (ws': seq<ClientWatch>)
    ensures |ws'| == |ws|
  {
    seq(|ws|, i requires 0 <= i < |ws| => if ws[i].active && ws[i].name == name then ws[i].(active := false) else ws[i])
  }

  /** A request line that does not fit its buffer is not sent. */
  function Request(c: ClientState, text: string): ClientState {
    if LineFits(text, MAX_LINE_SIZE) then QueueOrWrite(c, text).0 else c
  }

  function WatchLine(name: string, period: real): string {
    WatchText(name, PeriodJson(period))
  }

  function Watched(c: ClientState, name: string, period: real): ClientState {
    Request(c.(watches := Remembered(c.watches, name, period)), WatchLine(name, period))
  }

  function Unwatched(c: ClientState, name: string): ClientState {
    Request(c.(watches := Forgotten(c.watches, name)), WatchText(name, "false"))
  }

  function Assigned(c: ClientState, name: string, json: string): ClientState {
    Request(c, RecordText(name, json))
  }

  /** Sends the remembered watches from slot `i` on again. */
  function ReplayFrom(c: ClientState, i: nat): ClientState
    requires i <= |c.watches|
    decreases |c.watches| - i
  {
    if i == |c.watches| then c
    else if !c.watches[i].active then ReplayFrom(c, i + 1)
    else
      var c' := Request(c, WatchLine(c.watches[i].name, c.watches[i].period));
      ReplayFrom(c', i + 1)
  }

  function Connected(c: ClientState, accepts: seq<bool>): ClientState {
    ReplayFrom(FlushPending(c.(link := c.link.(up := true, accepts := accepts))), 0)
  }

  function Closed(c: ClientState): ClientState {
    c.(link := c.link.(up := false))
  }

  function Created(): ClientState {
    ClientState(seq(MAX_CLIENT_WATCHES, i => EMPTY_CLIENT_WATCH), seq(MAX_PENDING_LINES, i => EMPTY_LINE), Link(false, [], []))
  }

  // ---------------------------------------------------------------- the client object

  /** The far end of a connection: it takes a line as a whole or not at all. */
  class Connection {
    var up: bool
    var accepts: seq<bool>
    var sent: seq<string>

    constructor ()
      ensures View() == Link(false, [], [])
    {
      up, accepts, sent := false, [], [];
    }

    ghost function View(): Link
      reads this
    {
      Link(up, accepts, sent)
    }

    /** The number of bytes taken, or -1. */
    method Write(line: string) returns (n: int)
      modifies this
      ensures n == (if Send(old(View()), line).1 then |line| else -1)
      ensures View() == Send(old(View()), line).0
    {
      var accepted := |accepts| == 0 || accepts[0];
      if |accepts| > 0 {
        accepts := accepts[1..];
      }
      if !accepted {
        return -1;
      }
      sent := sent + [line];
      return |line|;
    }
  }

  class PypilotClient {
    const connection: Connection
    const watches: array<ClientWatch>
    const pending: array<PendingLine>

    ghost predicate Valid()
      reads this
    {
      watches.Length == MAX_CLIENT_WATCHES && pending.Length == MAX_PENDING_LINES
    }

    ghost function View(): ClientState
      reads this, connection, watches, pending
    {
      ClientState(watches[..], pending[..], connection.View())
    }

    constructor ()
      ensures Valid() && fresh(connection) && fresh(watches) && fresh(pending)
      ensures View() == Created()
    {
      connection := new Connection();
      watches := new ClientWatch[MAX_CLIENT_WATCHES](i => EMPTY_CLIENT_WATCH);
      pending := new PendingLine[MAX_PENDING_LINES](i => EMPTY_LINE);
      new;
      assert watches[..] == seq(MAX_CLIENT_WATCHES, i => EMPTY_CLIENT_WATCH);
      assert pending[..] == seq(MAX_PENDING_LINES, i => EMPTY_LINE);
    }

    method Queue(line: string) returns (ok: bool)
      modifies pending
      ensures (View(), ok) == QueueLine(old(View()), line)
    {
      if |line| >= MAX_LINE_SIZE {
        return false;
      }
      ghost var before := pending[..];
      for i := 0 to pending.Length
        invariant pending[..] == before
        invariant FreeLine(before) == FreeLine(before, i)
      {
        if !pending[i].active {
          pending[i] := PendingLine(true, line);
          assert pending[..] == before[i := PendingLine(true, line)];
          return true;
        }
      }
      return false;
    }

    method QueueOrWriteLine(line: string) returns (ok: bool)
      modifies pending, connection
      ensures (View(), ok) == QueueOrWrite(old(View()), line)
    {
      if connection.up {
        var n := connection.Write(line);
        if n == |line| {
          return true;
        }
      }
      ok := Queue(line);
    }

    method Flush()
      modifies pending, connection
      ensures View() == FlushPending(old(View()))
    {
      if !connection.up {
        return;
      }
      for i := 0 to pending.Length
        invariant FlushFrom(View(), i) == FlushFrom(old(View()), 0)
      {
        if pending[i].active {
          ghost var before := pending[..];
          var n := connection.Write(pending[i].text);
          if n == |pending[i].text| {
            pending[i] := PendingLine(false, "");
            assert pending[..] == before[i := EMPTY_LINE];
          }
        }
      }
    }

    method Pop() returns (line: Option<string>)
      modifies pending
      ensures (View(), line) == PopOutgoing(old(View()))
    {
      ghost var before := pending[..];
      for i := 0 to pending.Length
        invariant pending[..] == before
        invariant FirstPending(before) == FirstPending(before, i)
      {
        if pending[i].active {
          line := Some(pending[i].text);
          pending[i] := PendingLine(false, "");
          assert pending[..] == before[i := EMPTY_LINE];
          return;
        }
      }
      return None;
    }

    method RememberWatch(name: string, period: real)
      modifies watches
      ensures watches[..] == Remembered(old(watches[..]), name, period)
    {
      ghost var before := watches[..];
      for i := 0 to watches.Length
        invariant watches[..] == before
        invariant FindClientWatch(before, name) == FindClientWatch(before, name, i)
      {
        if watches[i].active && watches[i].name == name {
          watches[i] := watches[i].(period := period);
          assert watches[..] == before[i := before[i].(period := period)];
          return;
        }
      }
      for i := 0 to watches.Length
        invariant watches[..] == before
        invariant FreeClientWatch(before) == FreeClientWatch(before, i)
      {
        if !watches[i].active {
          var stored := StoredName(name);
          watches[i] := ClientWatch(true, stored, period);
          assert watches[..] == before[i := ClientWatch(true, stored, period)];
          return;
        }
      }
    }

    /** Text never contains the terminator, so what is built in a buffer is what is sent. */
    method SendBuffer(line: array<char>, ghost text: string)
      requires '\0' !in text && Holds(line, |text|, text) && LineFits(text, MAX_LINE_SIZE)
      modifies pending, connection
      ensures View() == Request(old(View()), text)
    {
      CStringIs(line[..], text);
      var _ := QueueOrWriteLine(CString(line[..]));
    }

    method WriteWatchLine(name: string, period: real)
      requires '\0' !in name
      modifies pending, connection
      ensures View() == Request(old(View()), WatchLine(name, period))
    {
      var line := new char[MAX_LINE_SIZE](i => '\0');
      var ok := MakeWatchPeriod(line, name, period);
      if ok {
        WatchLineNoTerminator(name, period);
        SendBuffer(line, WatchLine(name, period));
      }
    }

    method Watch(name: string, period: real)
      requires '\0' !in name
      modifies watches, pending, connection
      ensures View() == Watched(old(View()), name, period)
    {
      RememberWatch(name, period);
      WriteWatchLine(name, period);
    }

    method ForgetWatch(name: string)
      modifies watches
      ensures watches[..] == Forgotten(old(watches[..]), name)
    {
      ghost var goal := Forgotten(watches[..], name);
      for i := 0 to watches.Length
        invariant forall k :: 0 <= k < i ==> watches[k] == goal[k]
        invariant forall k :: i <= k < watches.Length ==> watches[k] == old(watches[k])
      {
        if watches[i].active && watches[i].name == name {
          watches[i] := watches[i].(active := false);
        }
      }
      assert watches[..] == goal;
    }

    method Unwatch(name: string)
      requires '\0' !in name
      modifies watches, pending, connection
      ensures View() == Unwatched(old(View()), name)
    {
      ForgetWatch(name);
      var line := new char[MAX_LINE_SIZE](i => '\0');
      var ok := MakeWatch(line, name, "false");
      if ok {
        SendBuffer(line, WatchText(name, "false"));
      }
    }

    method Set(name: string, json: string)
      requires '\0' !in name && '\0' !in json
      modifies pending, connection
      ensures View() == Assigned(old(View()), name, json)
    {
      var line := new char[MAX_LINE_SIZE](i => '\0');
      var ok := MakeRecordRaw(line, name, json);
      if ok {
        SendBuffer(line, RecordText(name, json));
      }
    }

    method SetBool(name: string, value: bool)
      requires '\0' !in name
      modifies pending, connection
      ensures View() == Assigned(old(View()), name, if value then "true" else "false")
    {
      Set(name, if value then "true" else "false");
    }

    method SetReal(name: string, value: real)
      requires '\0' !in name
      modifies pending, connection
      ensures View() == Assigned(old(View()), name, RealText(value))
    {
      var json := new char[NUMBER_SIZE](i => '\0');
      assert json[..0] == Fit("", json.Length);
      var end := AppendReal(json, 0, value, "");
      RealTextShort(value);
      assert "" + RealText(value) == RealText(value);
      RealTextNoTerminator(value);
      Set(name, json[..end]);
    }

    /** A string that is too long for its buffer is cut, closing quote included. */
    method SetString(name: string, value: string)
      requires '\0' !in name && '\0' !in value
      modifies pending, connection
      ensures View() == Assigned(old(View()), name, Fit(Quoted(value), JSON_SIZE))
    {
      var json := new char[JSON_SIZE](i => '\0');
      assert json[..0] == Fit("", json.Length);
      var end := AppendJsonString(json, 0, value, "");
      assert "" + Quoted(value) == Quoted(value);
      EscapedNoTerminator(value);
      Set(name, json[..end]);
    }

    method OnConnect(accepts: seq<bool>)
      requires Valid() && forall i :: 0 <= i < watches.Length ==> '\0' !in watches[i].name
      modifies pending, connection
      ensures View() == Connected(old(View()), accepts)
    {
      connection.up := true;
      connection.accepts := accepts;
      Flush();
      Replay();
    }

    method Replay()
      requires forall i :: 0 <= i < watches.Length ==> '\0' !in watches[i].name
      modifies pending, connection
      ensures View() == ReplayFrom(old(View()), 0)
    {
      for i := 0 to watches.Length
        invariant watches[..] == old(watches[..])
        invariant ReplayFrom(View(), i) == ReplayFrom(old(View()), 0)
      {
        if watches[i].active {
          WriteWatchLine(watches[i].name, watches[i].period);
        }
      }
    }

    method OnClose()
      modifies connection
      ensures View() == Closed(old(View()))
    {
      connection.up := false;
    }
  }

  // ---------------------------------------------------------------- no terminators

  lemma RealTextNoTerminator(x: real)
    ensures '\0' !in RealText(x)
  {
    FixedTextNoTerminator(x, 6);
    var text := Fit(FixedText(x, 6), NUMBER_SIZE);
    DropSpacesPart(text);
  }

  lemma {:induction false} DropSpacesPart(s: string)
    ensures forall c :: c in DropSpaces(s) ==> c in s
    decreases |s|
  {
    if |s| > 0 && s[0] == ' ' {
      DropSpacesPart(s[1..]);
    }
  }

  lemma {:induction false} EscapedNoTerminator(s: string)
    requires '\0' !in s
    ensures '\0' !in Escaped(s)
    decreases |s|
  {
    if |s| > 0 {
      EscapedNoTerminator(s[..|s| - 1]);
      assert s[|s| - 1] in s;
    }
  }

  lemma WatchLineNoTerminator(name: string, period: real)
    requires '\0' !in name
    ensures '\0' !in WatchLine(name, period)
  {
    RealTextNoTerminator(period);
  }
}
