/** The bounded watch table stands for a plain map from fields to (period, due time). */
module WatchTable {
  import opened DataModel
  import opened Fields
  import opened Grid
  import opened Values
  import opened Wrappers

  datatype Plan = Plan(period: real, due: nat)

  function AllFields(): (s: set<Field>)
    ensures forall f: Field :: f in s
  {
    var s := set i | 0 <= i < FIELD_COUNT :: FieldAt(i);
    assert forall f: Field :: f in s by {
      forall f: Field ensures f in s {
        assert FieldAt(Index(f)) == f;
      }
    }
    s
  }

  /** At most one active watch for each field. */
  ghost predicate Distinct(ws: seq<Watch>) {
    forall i, j :: 0 <= i < j < |ws| && ws[i].active && ws[j].active ==> ws[i].field != ws[j].field
  }

  ghost predicate SoundTable(r: Registry) {
    Distinct(r.watches) && |r.watches| == MAX_WATCHES && |r.dirty| == FIELD_COUNT
  }

  predicate IsWatched(ws: seq<Watch>, f: Field) {
    FindWatch(ws, f) < |ws|
  }

  function PlanOf(ws: seq<Watch>, f: Field): Plan
    requires IsWatched(ws, f)
  {
    Plan(ws[FindWatch(ws, f)].period, ws[FindWatch(ws, f)].due)
  }

  function WatchMap(ws: seq<Watch>): map<Field, Plan> {
    map f | f in AllFields() && IsWatched(ws, f) :: PlanOf(ws, f)
  }

  lemma FindOnly(ws: seq<Watch>, i: nat)
    requires Distinct(ws) && i < |ws| && ws[i].active
    ensures FindWatch(ws, ws[i].field) == i
  {}

  /** Two tables with the same active entries, wherever they are, have the same map. */
  lemma PlanAt(ws: seq<Watch>, f: Field, i: nat)
    requires Distinct(ws) && i < |ws| && ws[i].active && ws[i].field == f
    ensures f in WatchMap(ws) && WatchMap(ws)[f] == Plan(ws[i].period, ws[i].due)
  {}

  // ---------------------------------------------------------------- room for every field

  lemma {:induction false} Pigeonhole(s: seq<nat>, n: nat)
    requires forall i :: 0 <= i < |s| ==> s[i] < n
    requires forall i, j :: 0 <= i < j < |s| ==> s[i] != s[j]
    ensures |s| <= n
    decreases n
  {
    if |s| > 0 {
      assert s[0] < n;
      if k :| 0 <= k < |s| && s[k] == n - 1 {
        var t := s[..k] + s[k + 1..];
        Pigeonhole(t, n - 1);
      } else {
        Pigeonhole(s, n - 1);
      }
    }
  }

  /** There are more slots than fields, so a watch of any field finds one. */
  lemma RoomForAll(ws: seq<Watch>, f: Field)
    requires Distinct(ws) && |ws| == MAX_WATCHES
    ensures SlotFor(ws, f) < |ws|
  {
    if FreeWatch(ws) == |ws| {
      var s := seq(|ws|, i requires 0 <= i < |ws| => Index(ws[i].field));
      forall i, j | 0 <= i < j < |s| ensures s[i] != s[j] {
        assert FieldAt(s[i]) == ws[i].field && FieldAt(s[j]) == ws[j].field;
      }
      Pigeonhole(s, FIELD_COUNT);
    }
  }

  // ---------------------------------------------------------------- operations on the map

  lemma SlotForFree(ws: seq<Watch>, f: Field)
    requires SlotFor(ws, f) < |ws|
    ensures var i := SlotFor(ws, f);
            if ws[i].active then ws[i].field == f else forall k :: 0 <= k < |ws| && ws[k].active ==> ws[k].field != f
  {}

  /** The two entries are equal, or none of them is an active entry of a field other than
      `f`. */
  predicate Differs(w: Watch, w': Watch, f: Field) {
    w == w' || ((w.active ==> w.field == f) && (w'.active ==> w'.field == f))
  }

  lemma MatchSame(w: Watch, w': Watch, f: Field, g: Field)
    requires Differs(w, w', f) && g != f
    ensures w.active && w.field == g <==> w'.active && w'.field == g
  {}

  lemma {:induction false} FindSame(ws: seq<Watch>, ws': seq<Watch>, f: Field, g: Field, i: nat)
    requires |ws| == |ws'| && i <= |ws| && g != f
    requires forall k :: 0 <= k < |ws| ==> Differs(ws[k], ws'[k], f)
    ensures FindWatch(ws, g, i) == FindWatch(ws', g, i)
    decreases |ws| - i
  {
    hide Differs;
    if i < |ws| {
      assert Differs(ws[i], ws'[i], f);
      MatchSame(ws[i], ws'[i], f, g);
      FindSame(ws, ws', f, g, i + 1);
    }
  }

  /** Changing entries of one field leaves the rest of the map alone. */
  lemma SameElsewhere(ws: seq<Watch>, ws': seq<Watch>, f: Field)
    requires |ws| == |ws'|
    requires forall k :: 0 <= k < |ws| ==> Differs(ws[k], ws'[k], f)
    ensures WatchMap(ws') - {f} == WatchMap(ws) - {f}
  {
    hide IsWatched, PlanOf, Differs;
    forall g: Field | g != f
      ensures IsWatched(ws, g) == IsWatched(ws', g)
      ensures IsWatched(ws, g) ==> PlanOf(ws, g) == PlanOf(ws', g)
    {
      SameElsewhereAt(ws, ws', f, g);
    }
  }

  lemma SameElsewhereAt(ws: seq<Watch>, ws': seq<Watch>, f: Field, g: Field)
    requires |ws| == |ws'| && g != f
    requires forall k :: 0 <= k < |ws| ==> Differs(ws[k], ws'[k], f)
    ensures IsWatched(ws, g) == IsWatched(ws', g)
    ensures IsWatched(ws, g) ==> PlanOf(ws, g) == PlanOf(ws', g)
  {
    hide FindWatch, Differs;
    FindSame(ws, ws', f, g, 0);
    var i := FindWatch(ws, g);
    if i < |ws| {
      assert Differs(ws[i], ws'[i], f);
      DiffersNot(ws[i], ws'[i], f);
    }
  }

  lemma DiffersNot(w: Watch, w': Watch, f: Field)
    requires Differs(w, w', f) && w.active && w.field != f
    ensures w == w'
  {}

  lemma MapSplit<V>(m: map<Field, V>, m': map<Field, V>, f: Field)
    requires m' - {f} == m - {f}
    ensures f in m' ==> m' == m[f := m'[f]]
    ensures f !in m' ==> m' == m - {f}
  {
    assert forall g :: g != f ==> (g in m' <==> g in m' - {f}) && (g in m <==> g in m - {f});
    assert forall g :: g != f && g in m' ==> m'[g] == (m' - {f})[g] && m[g] == (m - {f})[g];
  }

  /** Watching always succeeds and updates the map at one field. */
  lemma WatchRefines(r: Registry, f: Field, period: real, now: nat)
    requires Distinct(r.watches) && |r.watches| == MAX_WATCHES
    ensures var (r', ok) := WatchField(r, f, period, now);
            && ok && Distinct(r'.watches) && |r'.watches| == MAX_WATCHES
            && WatchMap(r'.watches) == WatchMap(r.watches)[f := Plan(period, now + PeriodUs(period))]
            && r'.model == r.model && r'.dirty == r.dirty
  {
    hide WatchMap;
    var ws, i := r.watches, SlotFor(r.watches, f);
    RoomForAll(ws, f);
    SlotForFree(ws, f);
    var ws' := ws[i := NewWatch(f, period, now)];
    assert Distinct(ws');
    PlanAt(ws', f, i);
    SameElsewhere(ws, ws', f);
    MapSplit(WatchMap(ws), WatchMap(ws'), f);
  }

  lemma UnwatchRefines(ws: seq<Watch>, f: Field)
    requires Distinct(ws)
    ensures Distinct(Dropped(ws, f)) && WatchMap(Dropped(ws, f)) == WatchMap(ws) - {f}
  {
    hide WatchMap;
    var ws' := Dropped(ws, f);
    SameElsewhere(ws, ws', f);
    assert !IsWatched(ws', f);
    NotInMap(ws', f);
    MapSplit(WatchMap(ws), WatchMap(ws'), f);
  }

  lemma NotInMap(ws: seq<Watch>, f: Field)
    ensures f in WatchMap(ws) <==> IsWatched(ws, f)
  {}

  /** What a poll does to one plan. */
  predicate PlanDue(p: Plan, now: nat) {
    p.period > 0.0 && now >= p.due
  }

  function Replanned(p: Plan, now: nat): Plan {
    if !PlanDue(p, now) then p
    else if PeriodUs(p.period) == 0 then p
    else p.(due := Advance(p.due, PeriodUs(p.period), now))
  }

  lemma PollRefines(ws: seq<Watch>, now: nat)
    requires Distinct(ws)
    ensures var ws' := AllRescheduled(ws, now);
            && Distinct(ws')
            && WatchMap(ws') == map f | f in WatchMap(ws) :: Replanned(WatchMap(ws)[f], now)
  {
    hide FindWatch, Replanned;
    var ws' := AllRescheduled(ws, now);
    forall f: Field ensures IsWatched(ws', f) == IsWatched(ws, f)
      ensures IsWatched(ws, f) ==> PlanOf(ws', f) == Replanned(PlanOf(ws, f), now)
    {
      PollRefinesAt(ws, now, f);
    }
    assert Distinct(ws') by {
      assert forall k :: 0 <= k < |ws| ==> ws'[k].active == ws[k].active && ws'[k].field == ws[k].field;
    }
  }

  lemma PollRefinesAt(ws: seq<Watch>, now: nat, f: Field)
    requires Distinct(ws)
    ensures var ws' := AllRescheduled(ws, now);
            && IsWatched(ws', f) == IsWatched(ws, f)
            && (IsWatched(ws, f) ==> PlanOf(ws', f) == Replanned(PlanOf(ws, f), now))
  {
    hide FindWatch;
    var ws' := AllRescheduled(ws, now);
    assert forall k :: 0 <= k < |ws| ==> ws'[k].active == ws[k].active && ws'[k].field == ws[k].field;
    var i := FindWatch(ws, f);
    if i < |ws| {
      FindOnly(ws', i);
    }
  }

  // ---------------------------------------------------------------- what a poll prints

  /** The fields whose lines a poll prints, in slot order. */
  function DueFields(ws: seq<Watch>, now: nat, i: nat): seq<Field>
    requires i <= |ws|
    decreases |ws| - i
  {
    if i == |ws| then [] else (if DueNow(ws[i], now) then [ws[i].field] else []) + DueFields(ws, now, i + 1)
  }

  function FieldLines(m: Model, fs: seq<Field>): string {
    if |fs| == 0 then "" else LineOf(m, fs[0]) + FieldLines(m, fs[1..])
  }

  lemma {:induction false} DueTextLines(m: Model, ws: seq<Watch>, now: nat, i: nat)
    requires i <= |ws|
    ensures DueText(m, ws, now, i) == FieldLines(m, DueFields(ws, now, i))
    decreases |ws| - i
  {
    hide LineOf;
    if i < |ws| {
      DueTextLines(m, ws, now, i + 1);
      var rest := DueFields(ws, now, i + 1);
      assert ([ws[i].field] + rest)[1..] == rest;
      assert [] + rest == rest;
    }
  }

  /** A due watch of the field, from slot `i` on. */
  predicate DueAt(ws: seq<Watch>, now: nat, f: Field, k: nat)
    requires k < |ws|
  {
    ws[k].field == f && DueNow(ws[k], now)
  }

  lemma DueFieldsStep(ws: seq<Watch>, now: nat, i: nat)
    requires i < |ws|
    ensures var rest := DueFields(ws, now, i + 1);
            DueFields(ws, now, i) == if DueNow(ws[i], now) then [ws[i].field] + rest else rest
  {}

  lemma {:induction false} DueFieldsFrom(ws: seq<Watch>, now: nat, i: nat, f: Field)
    requires i <= |ws|
    ensures f in DueFields(ws, now, i) <==> exists k :: i <= k < |ws| && DueAt(ws, now, f, k)
    decreases |ws| - i
  {
    if i < |ws| {
      DueFieldsFrom(ws, now, i + 1, f);
      DueFieldsStep(ws, now, i);
      hide DueFields, DueNow;
      if k :| i <= k < |ws| && DueAt(ws, now, f, k) {
        assert k > i ==> f in DueFields(ws, now, i + 1);
      }
      if DueNow(ws[i], now) && ws[i].field == f {
        assert DueAt(ws, now, f, i);
      }
    }
  }

  ghost predicate NoRepeats(fs: seq<Field>) {
    forall a, b :: 0 <= a < b < |fs| ==> fs[a] != fs[b]
  }

  lemma {:induction false} DueFieldsOnce(ws: seq<Watch>, now: nat, i: nat)
    requires Distinct(ws) && i <= |ws|
    ensures NoRepeats(DueFields(ws, now, i))
    decreases |ws| - i
  {
    hide Distinct;
    if i < |ws| {
      var rest := DueFields(ws, now, i + 1);
      DueFieldsOnce(ws, now, i + 1);
      if DueNow(ws[i], now) {
        DueFieldsFrom(ws, now, i + 1, ws[i].field);
        NoLaterWatch(ws, now, i);
        NoRepeatsFront(ws[i].field, rest);
      } else {
        assert [] + rest == rest;
      }
    }
  }

  lemma NoLaterWatch(ws: seq<Watch>, now: nat, i: nat)
    requires Distinct(ws) && i < |ws| && ws[i].active
    ensures forall k :: i + 1 <= k < |ws| ==> !DueAt(ws, now, ws[i].field, k)
  {}

  lemma NoRepeatsFront(f: Field, fs: seq<Field>)
    requires NoRepeats(fs) && f !in fs
    ensures NoRepeats([f] + fs)
  {}

  /** A poll prints exactly the lines of the due plans, each once. */
  lemma PollPrints(m: Model, ws: seq<Watch>, now: nat, f: Field)
    requires Distinct(ws)
    ensures DueText(m, ws, now, 0) == FieldLines(m, DueFields(ws, now, 0))
    ensures f in DueFields(ws, now, 0) <==> f in WatchMap(ws) && PlanDue(WatchMap(ws)[f], now)
    ensures NoRepeats(DueFields(ws, now, 0))
  {
    hide DueText, FieldLines, DueFields, NoRepeats;
    DueTextLines(m, ws, now, 0);
    DueFieldsOnce(ws, now, 0);
    DueFieldsFrom(ws, now, 0, f);
    DuePlan(ws, now, f);
  }

  lemma DuePlan(ws: seq<Watch>, now: nat, f: Field)
    requires Distinct(ws)
    ensures (exists k :: 0 <= k < |ws| && DueAt(ws, now, f, k)) <==> f in WatchMap(ws) && PlanDue(WatchMap(ws)[f], now)
  {
    hide WatchMap, Distinct;
    NotInMap(ws, f);
    var i := FindWatch(ws, f);
    if i < |ws| {
      PlanAt(ws, f, i);
      if k :| 0 <= k < |ws| && DueAt(ws, now, f, k) {
        PlanAt(ws, f, k);
      }
      assert DueAt(ws, now, f, i) <==> DueNow(ws[i], now);
    }
  }
}
