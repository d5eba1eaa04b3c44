/** Every run of the scheduler is lawful: its slot table always stands for the ledger of its
    log. */
module EventLoopRuns {
  import opened EventLoop
  import opened Grid
  import opened TimerLedger

  function EntryOf(s: Slot): Entry {
    if s.poll then Always else Timer(s.due, s.period)
  }

  /** The slot that holds a handle. */
  ghost predicate Holds(slots: seq<Slot>, i: nat, h: int) {
    i < |slots| && slots[i].active && slots[i].id == h
  }

  /** The active slots are the graph of the map. */
  ghost predicate Represents(slots: seq<Slot>, live: map<int, Entry>) {
    && (forall i :: 0 <= i < |slots| && slots[i].active ==> slots[i].id in live && live[slots[i].id] == EntryOf(slots[i]))
    && (forall h :: h in live ==> Holds(slots, Find(slots, h), h))
    && (forall i, j :: 0 <= i < j < |slots| && slots[i].active && slots[j].active ==> slots[i].id != slots[j].id)
  }

  ghost predicate Sound(l: Loop) {
    var g := Books(l.log, |l.slots|);
    && l.nextId > 0
    && g.lawful
    && Represents(l.slots, g.live)
    && (forall h :: h in g.issued ==> 0 < h < l.nextId)
    && g.live.Keys <= g.issued
  }

  // ---------------------------------------------------------------- the table as a map

  lemma NotFoundNotLive(slots: seq<Slot>, live: map<int, Entry>, h: int)
    requires Represents(slots, live) && Find(slots, h) == |slots|
    ensures h !in live
  {}

  /** Writing an inactive slot over an active one removes its handle. */
  lemma RepresentsRemove(slots: seq<Slot>, live: map<int, Entry>, i: nat, s: Slot)
    requires Represents(slots, live) && i < |slots| && slots[i].active && !s.active
    ensures Represents(slots[i := s], live - {slots[i].id})
  {
    var h := slots[i].id;
    var slots', live' := slots[i := s], live - {h};
    forall g | g in live' ensures Holds(slots', Find(slots', g), g) {
      var k := Find(slots, g);
      assert Holds(slots, k, g) && k != i;
      assert slots'[k] == slots[k];
    }
  }

  /** Overwriting a slot with an active one binds its handle. */
  lemma RepresentsBind(slots: seq<Slot>, live: map<int, Entry>, i: nat, s: Slot)
    requires Represents(slots, live) && i < |slots| && s.active
    requires if slots[i].active then s.id == slots[i].id else s.id !in live
    ensures Represents(slots[i := s], live[s.id := EntryOf(s)])
  {
    var slots', live' := slots[i := s], live[s.id := EntryOf(s)];
    forall g | g in live' ensures Holds(slots', Find(slots', g), g) {
      if g == s.id {
        assert slots'[i].active && slots'[i].id == g;
      } else {
        var k := Find(slots, g);
        assert Holds(slots, k, g) && k != i;
        assert slots'[k] == slots[k];
      }
    }
  }

  /** The number of live handles is the number of active slots. */
  function ActiveCount(slots: seq<Slot>): (n: nat)
    ensures n <= |slots|
    ensures n == |slots| <==> forall i :: 0 <= i < |slots| ==> slots[i].active
  {
    if |slots| == 0 then 0
    else
      var front := slots[..|slots| - 1];
      assert (forall i :: 0 <= i < |slots| ==> slots[i].active) <==>
             (forall i :: 0 <= i < |front| ==> front[i].active) && slots[|slots| - 1].active by {
        assert forall i :: 0 <= i < |front| ==> front[i] == slots[i];
      }
      ActiveCount(front) + (if slots[|slots| - 1].active then 1 else 0)
  }

  lemma {:induction false} LiveCount(slots: seq<Slot>, live: map<int, Entry>)
    requires Represents(slots, live)
    ensures |live| == ActiveCount(slots)
    decreases |slots|
  {
    if |slots| == 0 {
      forall h ensures h !in live.Keys {
        NotFoundNotLive(slots, live, h);
      }
      assert live.Keys == {};
    } else {
      var front, last := slots[..|slots| - 1], slots[|slots| - 1];
      var live' := if last.active then live - {last.id} else live;
      forall g | g in live' ensures Holds(front, Find(front, g), g) {
        var k := Find(slots, g);
        assert Holds(slots, k, g) && k < |front|;
        assert front[k] == slots[k];
      }
      LiveCount(front, live');
      if last.active {
        assert live.Keys == live'.Keys + {last.id};
      }
    }
  }

  // ---------------------------------------------------------------- every step is lawful

  lemma AddedSound(l: Loop, entry: Slot)
    requires Sound(l) && entry.active
    ensures Sound(Added(l, entry))
  {
    var n := |l.slots|;
    var g := Books(l.log, n);
    var i := FirstFree(l.slots);
    LiveCount(l.slots, g.live);
    if i == n {
      BooksSnoc(l.log, Refused, n);
    } else {
      var slot := entry.(id := l.nextId);
      BooksSnoc(l.log, Issued(l.nextId, entry.due, entry.period, entry.poll), n);
      RepresentsBind(l.slots, g.live, i, slot);
    }
  }

  lemma CancelSound(l: Loop, handle: int)
    requires Sound(l)
    ensures Sound(WithoutHandle(l, handle))
  {
    var n := |l.slots|;
    var g := Books(l.log, n);
    var i := Find(l.slots, handle);
    BooksSnoc(l.log, Cancelled(handle), n);
    if handle <= 0 || i == n {
      if i == n {
        NotFoundNotLive(l.slots, g.live, handle);
      }
      assert g.live - {handle} == g.live;
    } else {
      RepresentsRemove(l.slots, g.live, i, Freed(l.slots[i]));
    }
  }

  lemma FiredSound(l: Loop, i: nat, now: nat)
    requires Sound(l) && i < |l.slots| && Runnable(l.slots[i], now)
    ensures Sound(Fired(l, i, now))
  {
    var n := |l.slots|;
    var g := Books(l.log, n);
    var s := l.slots[i];
    var s' := Rearmed(s, now);
    BooksSnoc(l.log, Called(s.id, now), n);
    if s'.active {
      RepresentsBind(l.slots, g.live, i, s');
      if s.poll {
        assert g.live[s.id := EntryOf(s')] == g.live;
      }
    } else {
      RepresentsRemove(l.slots, g.live, i, s');
    }
  }

  lemma ElapseSound(l: Loop, us: nat)
    requires Sound(l)
    ensures Sound(l.(clock := l.clock + us))
  {}

  lemma DoneSound(l: Loop, op: Op)
    requires Sound(l)
    ensures Sound(Done(l, op))
  {
    hide Sound, Added, WithoutHandle;
    match op
    case Elapse(us) => ElapseSound(l, us);
    case AddTimer(delay, period, hasCallback) =>
      AddedSound(l, Slot(true, false, 0, l.clock + delay, period, hasCallback));
    case AddPoll(hasCallback) =>
      var i := FirstFree(l.slots);
      var stale := if i < |l.slots| then l.slots[i] else EMPTY_SLOT;
      AddedSound(l, Slot(true, true, 0, stale.due, stale.period, hasCallback));
    case Cancel(handle) =>
      CancelSound(l, handle);
  }

  lemma {:induction false} AllDoneSound(l: Loop, ops: seq<Op>)
    requires Sound(l)
    ensures Sound(AllDone(l, ops))
    decreases ops
  {
    if |ops| > 0 {
      DoneSound(l, ops[0]);
      AllDoneSound(Done(l, ops[0]), ops[1..]);
    }
  }

  lemma {:induction false} PassSound(l: Loop, i: nat, n: nat, now: nat, world: World)
    requires Sound(l) && |l.slots| == n && i <= n
    ensures Sound(PassFrom(l, i, n, now, world))
    decreases n - i
  {
    if i < n {
      if Runnable(l.slots[i], now) {
        var l1 := Fired(l, i, now);
        FiredSound(l, i, now);
        SameSlotCount(l1, world(l1.log));
        AllDoneSound(l1, world(l1.log));
        PassSound(AllDone(l1, world(l1.log)), i + 1, n, now, world);
      } else {
        PassSound(l, i + 1, n, now, world);
      }
    }
  }

  // ---------------------------------------------------------------- runs

  datatype Command = Do(op: Op) | Tick(world: World)

  function Created(maxCallbacks: nat): Loop {
    Loop(seq(maxCallbacks, i => EMPTY_SLOT), 1, 0, [])
  }

  function Step(l: Loop, c: Command): Loop {
    match c
    case Do(op) => Done(l, op)
    case Tick(world) => Pass(l, world)
  }

  function Run(l: Loop, cs: seq<Command>): Loop
    decreases cs
  {
    if |cs| == 0 then l else Run(Step(l, cs[0]), cs[1..])
  }

  lemma {:induction false} RunSound(l: Loop, cs: seq<Command>)
    requires Sound(l)
    ensures Sound(Run(l, cs))
    decreases cs
  {
    if |cs| > 0 {
      match cs[0] {
        case Do(op) => DoneSound(l, op);
        case Tick(world) => PassSound(l, 0, |l.slots|, l.clock, world);
      }
      RunSound(Step(l, cs[0]), cs[1..]);
    }
  }

  lemma {:induction false} PassSameCount(l: Loop, i: nat, n: nat, now: nat, world: World)
    requires |l.slots| == n && i <= n
    ensures |PassFrom(l, i, n, now, world).slots| == n
    decreases n - i
  {
    if i < n {
      if Runnable(l.slots[i], now) {
        var l1 := Fired(l, i, now);
        SameSlotCount(l1, world(l1.log));
        PassSameCount(AllDone(l1, world(l1.log)), i + 1, n, now, world);
      } else {
        PassSameCount(l, i + 1, n, now, world);
      }
    }
  }

  lemma {:induction false} RunSameCount(l: Loop, cs: seq<Command>)
    ensures |Run(l, cs).slots| == |l.slots|
    decreases cs
  {
    if |cs| > 0 {
      match cs[0] {
        case Do(op) => SameSlotCount(l, [op]); assert AllDone(l, [op]) == AllDone(Done(l, op), []);
        case Tick(world) => PassSameCount(l, 0, |l.slots|, l.clock, world);
      }
      RunSameCount(Step(l, cs[0]), cs[1..]);
    }
  }

  lemma ReachedSound(maxCallbacks: nat, cs: seq<Command>)
    ensures var l := Run(Created(maxCallbacks), cs);
            Sound(l) && |l.slots| == maxCallbacks && Lawful(l.log, maxCallbacks)
  {
    var l := Created(maxCallbacks);
    assert Sound(l);
    RunSound(l, cs);
    RunSameCount(l, cs);
  }

  /** The main simulation: from an empty table, every run of additions, cancellations and
      passes, with callbacks that may do anything but nest passes, produces a log that the plain
      map of live handles allows, and a table that stands for that map. */
  lemma EveryRunLawful(maxCallbacks: nat, cs: seq<Command>)
    ensures var l := Run(Created(maxCallbacks), cs);
            && |l.slots| == maxCallbacks
            && Lawful(l.log, maxCallbacks)
            && Represents(l.slots, Books(l.log, maxCallbacks).live)
  {
    ReachedSound(maxCallbacks, cs);
  }
}
