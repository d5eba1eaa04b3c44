/** Names that do not fit the client's table of watches. */
module LongNames {
  import opened Client
  import opened ClientText

  /** The table has an active entry of that name. */
  predicate Remembers(ws: seq<ClientWatch>, name: string) {
    exists i :: 0 <= i < |ws| && ws[i].active && ws[i].name == name
  }

  predicate HasRoom(ws: seq<ClientWatch>) {
    exists i :: 0 <= i < |ws| && !ws[i].active
  }

  /** At most 63 characters of a name are remembered. */
  function Front(name: string): string {
    if |name| < 64 then name else name[..63]
  }

  /** A watch of a new name remembers the front of it and forgets nothing. */
  lemma WatchRemembers(ws: seq<ClientWatch>, name: string, period: real, other: string)
    requires HasRoom(ws) && !Remembers(ws, name)
    ensures var ws' := Remembered(ws, name, period);
            Remembers(ws', other) <==> other == Front(name) || Remembers(ws, other)
  {
    var j := FreeClientWatch(ws);
    var ws' := Remembered(ws, name, period);
    assert ws'[j].active && ws'[j].name == Front(name);
    if Remembers(ws, other) {
      var i :| 0 <= i < |ws| && ws[i].active && ws[i].name == other;
      assert ws'[i] == ws[i];
    }
  }

  /** An unwatch forgets its name and no other. */
  lemma UnwatchForgets(ws: seq<ClientWatch>, name: string, other: string)
    ensures Remembers(Forgotten(ws, name), other) <==> other != name && Remembers(ws, other)
  {
    var ws' := Forgotten(ws, name);
    if other != name && Remembers(ws, other) {
      var i :| 0 <= i < |ws| && ws[i].active && ws[i].name == other;
      assert ws'[i] == ws[i];
    }
  }

  /** An unwatch undoes a watch of a new name exactly when the name has at most 63 characters; of
      a longer one the front stays in the table, to be asked for at every connection. */
  lemma UnwatchUndoesIff(ws: seq<ClientWatch>, name: string, period: real)
    requires HasRoom(ws) && !Remembers(ws, name) && !Remembers(ws, Front(name))
    ensures var ws' := Forgotten(Remembered(ws, name, period), name);
            && ((forall other :: Remembers(ws', other) <==> Remembers(ws, other)) <==> |name| <= 63)
            && (Remembers(ws', Front(name)) <==> |name| > 63)
  {
    hide Remembers, Remembered, Forgotten, HasRoom;
    var ws1 := Remembered(ws, name, period);
    forall other ensures Remembers(Forgotten(ws1, name), other) <==> other != name && (other == Front(name) || Remembers(ws, other)) {
      UnwatchForgets(ws1, name, other);
      WatchRemembers(ws, name, period, other);
    }
  }

  /** A long name fills one more slot each time it is watched, until the table is full. */
  lemma WatchedTwice(ws: seq<ClientWatch>, name: string, period: real)
    requires |name| > 63 && HasRoom(ws) && !Remembers(ws, name)
    ensures var ws' := Remembered(ws, name, period);
            !Remembers(ws', name) && Active(ws') == Active(ws) + 1
  {
    hide Remembers, Remembered, HasRoom;
    WatchRemembers(ws, name, period, name);
    OneMoreActive(ws, name, period);
  }

  /** How many entries are active. */
  function Active(ws: seq<ClientWatch>): nat {
    if |ws| == 0 then 0 else (if ws[0].active then 1 else 0) + Active(ws[1..])
  }

  lemma {:induction false} ActiveFill(ws: seq<ClientWatch>, j: nat, w: ClientWatch)
    requires j < |ws| && !ws[j].active && w.active
    ensures Active(ws[j := w]) == Active(ws) + 1
    decreases j
  {
    if j == 0 {
      assert ws[0 := w][1..] == ws[1..];
    } else {
      assert ws[j := w][1..] == ws[1..][j - 1 := w];
      ActiveFill(ws[1..], j - 1, w);
    }
  }

  lemma OneMoreActive(ws: seq<ClientWatch>, name: string, period: real)
    requires HasRoom(ws) && !Remembers(ws, name)
    ensures Active(Remembered(ws, name, period)) == Active(ws) + 1
  {
    hide Active;
    var j := FreeClientWatch(ws);
    ActiveFill(ws, j, ClientWatch(true, StoredName(name), period));
  }
}
