/** Client and server agree on what is watched: through every run of requests, connections and
    disconnections, the lines written so far followed by the lines still pending turn the
    server's watch table into the client's. */
module Agreement {
  import opened Client
  import opened ClientText
  import opened Decimal
  import opened Fields
  import opened PendingQueue
  import opened Requests
  import opened Search
  import opened Server
  import opened Text
  import opened Values
  import opened WatchTable
  import opened Wrappers

  // ---------------------------------------------------------------- the server's side

  /** The watch table without due times. */
  function Periods(r: Registry): map<Field, real> {
    map f | f in WatchMap(r.watches) :: WatchMap(r.watches)[f].period
  }

  lemma WatchFieldPeriods(r: Registry, f: Field, period: real, now: nat)
    requires SoundTable(r)
    ensures var (r', ok) := WatchField(r, f, period, now);
            ok && SoundTable(r') && Periods(r') == Periods(r)[f := period]
  {
    hide WatchField, WatchMap;
    WatchRefines(r, f, period, now);
  }

  lemma DroppedPeriods(r: Registry, f: Field)
    requires SoundTable(r)
    ensures var r' := r.(watches := Dropped(r.watches, f));
            SoundTable(r') && Periods(r') == Periods(r) - {f}
  {
    hide WatchMap;
    UnwatchRefines(r.watches, f);
  }

  lemma PerformSound(r: Registry, key: string, value: string, now: nat)
    requires SoundTable(r)
    ensures SoundTable(Perform(r, key, value, now).0.reg)
  {
    hide WatchField, ParsePeriod, ValuesLine, LineOf;
    match Find(key)
    case None =>
    case Some(f) =>
      DroppedPeriods(r, f);
      if value != "false" && ParsePeriod(value).Some? {
        WatchFieldPeriods(r, f, ParsePeriod(value).value, now);
      }
  }

  lemma {:induction false} PerformAllSound(r: Registry, expression: string, now: nat)
    requires SoundTable(r)
    ensures SoundTable(PerformAll(r, expression, now).reg)
    decreases |expression|
  {
    hide Next, Perform, SoundTable;
    match Next(expression) {
      case Entry(key, value, rest) =>
        PerformSound(r, key, value, now);
        var (reply, stop) := Perform(r, key, value, now);
        if !stop {
          PerformAllSound(reply.reg, rest, now);
        }
      case _ =>
    }
  }

  /** Every line keeps the table sound. */
  lemma HandleLineSound(r: Registry, line: string, now: nat)
    requires SoundTable(r)
    ensures SoundTable(HandleLine(r, line, now).reg)
  {
    hide PerformAll, Trim, Put;
    var l := Trim(line);
    var value := Trim(l[if IndexOf(l, '=') < |l| then IndexOf(l, '=') + 1 else 0..]);
    var e := Trim(value);
    if Braced(e) {
      PerformAllSound(r, e[1..|e| - 1], now);
    }
  }

  /** The name in front of the first equals sign. */
  function RequestName(line: string): string {
    var l := Trim(line);
    Trim(l[..IndexOf(l, '=')])
  }

  /** Only lines whose name is "watch" touch the watch table. */
  lemma OtherLinesKeepWatches(r: Registry, line: string, now: nat)
    requires |r.dirty| == FIELD_COUNT && RequestName(line) != "watch"
    ensures HandleLine(r, line, now).reg.watches == r.watches
  {}

  // ---------------------------------------------------------------- the wire

  /** The server after handling the lines in order; `clock(k)` is its time at line `k`. */
  ghost function Serve(r: Registry, lines: seq<string>, clock: nat -> nat): (r': Registry)
    requires SoundTable(r)
    ensures SoundTable(r')
    decreases |lines|
  {
    if |lines| == 0 then r
    else
      var front := Serve(r, lines[..|lines| - 1], clock);
      HandleLineSound(front, lines[|lines| - 1], clock(|lines| - 1));
      HandleLine(front, lines[|lines| - 1], clock(|lines| - 1)).reg
  }

  lemma ServeSnoc(r: Registry, lines: seq<string>, line: string, clock: nat -> nat)
    requires SoundTable(r)
    ensures Serve(r, lines + [line], clock) == HandleLine(Serve(r, lines, clock), line, clock(|lines|)).reg
  {
    hide HandleLine;
    assert (lines + [line])[..|lines|] == lines;
  }

  /** What one more line of each kind does to the watched periods. */
  lemma ServeWatch(r: Registry, lines: seq<string>, f: Field, period: real, clock: nat -> nat)
    requires SoundTable(r)
    ensures Periods(Serve(r, lines + [WatchLine(Name(f), period)], clock)) ==
            Periods(Serve(r, lines, clock))[f := Asked(period)]
  {
    hide HandleLine, WatchField, Periods, Asked, Serve;
    var s := Serve(r, lines, clock);
    ServeSnoc(r, lines, WatchLine(Name(f), period), clock);
    WatchFieldPeriods(s, f, Asked(period), clock(|lines|));
    WatchLineSets(s, f, period, clock(|lines|));
  }

  lemma ServeUnwatch(r: Registry, lines: seq<string>, f: Field, clock: nat -> nat)
    requires SoundTable(r)
    ensures Periods(Serve(r, lines + [WatchText(Name(f), "false")], clock)) == Periods(Serve(r, lines, clock)) - {f}
  {
    hide HandleLine, Periods, Serve;
    var s := Serve(r, lines, clock);
    ServeSnoc(r, lines, WatchText(Name(f), "false"), clock);
    UnwatchLineDrops(s, f, clock(|lines|));
    DroppedPeriods(s, f);
  }

  lemma ServeOther(r: Registry, lines: seq<string>, line: string, clock: nat -> nat)
    requires SoundTable(r) && RequestName(line) != "watch"
    ensures Periods(Serve(r, lines + [line], clock)) == Periods(Serve(r, lines, clock))
  {
    hide HandleLine, Serve;
    ServeSnoc(r, lines, line, clock);
    OtherLinesKeepWatches(Serve(r, lines, clock), line, clock(|lines|));
  }

  // ---------------------------------------------------------------- the client's side

  /** Every active entry is for a field, and no field has two. */
  ghost predicate ClientSound(ws: seq<ClientWatch>) {
    && |ws| == MAX_CLIENT_WATCHES
    && (forall i :: 0 <= i < |ws| && ws[i].active ==> Find(ws[i].name).Some?)
    && (forall i, j :: 0 <= i < j < |ws| && ws[i].active && ws[j].active ==> ws[i].name != ws[j].name)
  }

  /** The periods that the client's table asks for. */
  function Wanted(ws: seq<ClientWatch>): map<Field, real> {
    map f | f in AllFields() && FindClientWatch(ws, Name(f)) < |ws| :: Asked(ws[FindClientWatch(ws, Name(f))].period)
  }

  lemma WantedAt(ws: seq<ClientWatch>, f: Field, i: nat)
    requires ClientSound(ws) && i < |ws| && ws[i].active && ws[i].name == Name(f)
    ensures FindClientWatch(ws, Name(f)) == i
    ensures f in Wanted(ws) && Wanted(ws)[f] == Asked(ws[i].period)
  {
    hide Name;
  }

  /** The fields outnumber neither table, so a watch of a field is always remembered. */
  lemma RoomToRemember(ws: seq<ClientWatch>)
    requires ClientSound(ws)
    ensures FreeClientWatch(ws) < |ws|
  {
    hide Name, Find;
    if FreeClientWatch(ws) == |ws| {
      var s := seq(|ws|, i requires 0 <= i < |ws| => if Find(ws[i].name).Some? then Index(Find(ws[i].name).value) else 0);
      forall i, j | 0 <= i < j < |s| ensures s[i] != s[j] {
        assert ws[i].active && ws[j].active;
        assert FieldAt(s[i]) == Find(ws[i].name).value && FieldAt(s[j]) == Find(ws[j].name).value;
      }
      Pigeonhole(s, FIELD_COUNT);
    }
  }

  lemma FieldNamesKept(f: Field)
    ensures StoredName(Name(f)) == Name(f) && Find(Name(f)) == Some(f)
  {
    NameChars(f);
    FindName(f);
  }

  /** Entries of other names are the same in both tables. */
  ghost predicate SameOthers(ws: seq<ClientWatch>, ws': seq<ClientWatch>, name: string) {
    && |ws| == |ws'|
    && forall k :: 0 <= k < |ws| ==>
         ws[k] == ws'[k] || ((ws[k].active ==> ws[k].name == name) && (ws'[k].active ==> ws'[k].name == name))
  }

  lemma FindSameOthers(ws: seq<ClientWatch>, ws': seq<ClientWatch>, name: string, other: string, i: nat)
    requires SameOthers(ws, ws', name) && other != name && i <= |ws|
    ensures FindClientWatch(ws, other, i) == FindClientWatch(ws', other, i)
  {}

  lemma SameElsewhereOne(ws: seq<ClientWatch>, ws': seq<ClientWatch>, f: Field, g: Field)
    requires SameOthers(ws, ws', Name(f)) && g != f
    ensures var i := FindClientWatch(ws, Name(g));
            FindClientWatch(ws', Name(g)) == i && (i < |ws| ==> ws'[i] == ws[i])
  {
    hide Name;
    if Name(f) == Name(g) {
      NamesDistinct(f, g);
    }
    FindSameOthers(ws, ws', Name(f), Name(g), 0);
    var i := FindClientWatch(ws, Name(g));
    assert i < |ws| ==> ws[i].active && ws[i].name == Name(g);
  }

  lemma WantedElsewhere(ws: seq<ClientWatch>, ws': seq<ClientWatch>, f: Field)
    requires SameOthers(ws, ws', Name(f))
    ensures Wanted(ws') - {f} == Wanted(ws) - {f}
  {
    hide Name, Asked, SameOthers, FindClientWatch;
    SameLength(ws, ws', Name(f));
    forall g: Field | g != f
      ensures FindClientWatch(ws, Name(g)) == FindClientWatch(ws', Name(g))
      ensures FindClientWatch(ws, Name(g)) < |ws| ==> ws[FindClientWatch(ws, Name(g))] == ws'[FindClientWatch(ws, Name(g))]
    {
      SameElsewhereOne(ws, ws', f, g);
    }
  }

  lemma SameLength(ws: seq<ClientWatch>, ws': seq<ClientWatch>, name: string)
    requires SameOthers(ws, ws', name)
    ensures |ws| == |ws'|
  {}

  lemma RememberedWanted(ws: seq<ClientWatch>, f: Field, period: real)
    requires ClientSound(ws)
    ensures var ws' := Remembered(ws, Name(f), period);
            ClientSound(ws') && Wanted(ws') == Wanted(ws)[f := Asked(period)]
  {
    hide Name, Find, Wanted, Asked, StoredName;
    var ws' := Remembered(ws, Name(f), period);
    RoomToRemember(ws);
    FieldNamesKept(f);
    var i := if FindClientWatch(ws, Name(f)) < |ws| then FindClientWatch(ws, Name(f)) else FreeClientWatch(ws);
    assert ws' == ws[i := ClientWatch(true, Name(f), period)];
    assert ClientSound(ws');
    WantedAt(ws', f, i);
    WantedElsewhere(ws, ws', f);
    MapSplit(Wanted(ws), Wanted(ws'), f);
  }

  lemma ForgottenWanted(ws: seq<ClientWatch>, f: Field)
    requires ClientSound(ws)
    ensures var ws' := Forgotten(ws, Name(f));
            ClientSound(ws') && Wanted(ws') == Wanted(ws) - {f}
  {
    hide Name, Find, Wanted;
    var ws' := Forgotten(ws, Name(f));
    WantedElsewhere(ws, ws', f);
    NotWanted(ws', f);
    MapSplit(Wanted(ws), Wanted(ws'), f);
  }

  lemma NotWanted(ws: seq<ClientWatch>, f: Field)
    ensures f in Wanted(ws) <==> FindClientWatch(ws, Name(f)) < |ws|
  {}

  // ---------------------------------------------------------------- reconnecting

  lemma WatchLineLength(f: Field, period: real)
    ensures LineFits(WatchLine(Name(f), period), MAX_LINE_SIZE) && LineFits(WatchText(Name(f), "false"), MAX_LINE_SIZE)
  {
    hide Name, RealText;
    NameChars(f);
    RealTextShort(period);
  }

  /** What the client's table from slot `i` on asks for. */
  function WantedFrom(ws: seq<ClientWatch>, i: nat): map<Field, real>
    requires i <= |ws|
    decreases |ws| - i
  {
    if i == |ws| then map[]
    else if ws[i].active && Find(ws[i].name).Some? then WantedFrom(ws, i + 1)[Find(ws[i].name).value := Asked(ws[i].period)]
    else WantedFrom(ws, i + 1)
  }

  lemma {:induction false} WantedFromKeys(ws: seq<ClientWatch>, i: nat, f: Field)
    requires ClientSound(ws) && i <= |ws|
    ensures f in WantedFrom(ws, i) <==> exists k :: i <= k < |ws| && ws[k].active && ws[k].name == Name(f)
    ensures forall k :: i <= k < |ws| && ws[k].active && ws[k].name == Name(f) ==>
              f in WantedFrom(ws, i) && WantedFrom(ws, i)[f] == Asked(ws[k].period)
    decreases |ws| - i
  {
    hide Name, Asked, Find;
    if i < |ws| {
      WantedFromKeys(ws, i + 1, f);
      FindName(f);
      if ws[i].active {
        NameOfFound(ws[i].name);
      }
    }
  }

  lemma NameOfFound(name: string)
    ensures Find(name).Some? ==> Name(Find(name).value) == name
  {}

  lemma WantedFromStart(ws: seq<ClientWatch>)
    requires ClientSound(ws)
    ensures WantedFrom(ws, 0) == Wanted(ws)
  {
    hide Name, Asked;
    forall f: Field ensures f in WantedFrom(ws, 0) <==> f in Wanted(ws)
      ensures f in Wanted(ws) ==> WantedFrom(ws, 0)[f] == Wanted(ws)[f]
    {
      WantedFromKeys(ws, 0, f);
      NotWanted(ws, f);
    }
  }

  /** Replaying overrides the server's periods by the client's. */
  lemma {:induction false} ReplayMerges(c: ClientState, i: nat, r: Registry, clock: nat -> nat)
    requires SoundTable(r) && ClientSound(c.watches) && i <= |c.watches|
    requires c.link.up && c.link.accepts == []
    ensures var c' := ReplayFrom(c, i);
            && c'.watches == c.watches && c'.pending == c.pending && c'.link.up && c'.link.accepts == []
            && Periods(Serve(r, c'.link.sent, clock)) == Periods(Serve(r, c.link.sent, clock)) + WantedFrom(c.watches, i)
    decreases |c.watches| - i
  {
    hide Name, Serve, Periods, Asked, WatchLine, Find;
    if i < |c.watches| {
      var w := c.watches[i];
      if w.active {
        var f := Find(w.name).value;
        NameOfFound(w.name);
        WatchLineLength(f, w.period);
        var c1 := Request(c, WatchLine(w.name, w.period));
        assert c1 == c.(link := c.link.(sent := c.link.sent + [WatchLine(w.name, w.period)]));
        ReplayMerges(c1, i + 1, r, clock);
        ServeWatch(r, c.link.sent, f, w.period, clock);
        WantedFromKeys(c.watches, i + 1, f);
        assert f !in WantedFrom(c.watches, i + 1);
      } else {
        ReplayMerges(c, i + 1, r, clock);
      }
    }
  }

  /** After a connection whose writes all succeed, whatever the queue and the server looked like
      before: the queue is empty and the server's periods are those that the flushed lines leave,
      overridden by every watch of the client. */
  lemma ConnectMerges(c: ClientState, r: Registry, clock: nat -> nat)
    requires SoundTable(r) && ClientSound(c.watches)
    ensures var c' := Connected(c, []);
            && c'.watches == c.watches && c'.link.up && c'.link.accepts == []
            && |c'.pending| == |c.pending| && (forall k :: 0 <= k < |c'.pending| ==> !c'.pending[k].active)
            && Periods(Serve(r, c'.link.sent, clock)) == Periods(Serve(r, AllLines(c), clock)) + Wanted(c.watches)
  {
    hide Serve, Periods, Wanted, ClientSound;
    var c1 := c.(link := c.link.(up := true, accepts := []));
    FlushInOrder(c1, 0);
    ReplayMerges(FlushPending(c1), 0, r, clock);
    WantedFromStart(c.watches);
  }

  /** Every active client watch is in force after a successful replay, even if requests were lost
      or left the queue out of order. */
  lemma ReplayRestores(c: ClientState, r: Registry, clock: nat -> nat, f: Field)
    requires SoundTable(r) && ClientSound(c.watches)
    ensures var served := Serve(r, Connected(c, []).link.sent, clock);
            f in Wanted(c.watches) ==> f in Periods(served) && Periods(served)[f] == Wanted(c.watches)[f]
  {
    hide Serve, Periods, Wanted, ClientSound, Connected;
    ConnectMerges(c, r, clock);
  }
}
