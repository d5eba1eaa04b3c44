/** One pass over the slot table while callbacks rearrange it. */
module EventLoopPass {
  import opened EventLoop
  import opened EventLoopRuns
  import opened TimerLedger
  import opened Wrappers

  function Since(l: Loop, l': Loop): seq<Event> {
    if |l.log| <= |l'.log| then l'.log[|l.log|..] else []
  }

  predicate About(e: Event, h: int) {
    (e.Called? || e.Cancelled?) && e.handle == h
  }

  /** The first call or cancellation of a handle. */
  function FirstAbout(events: seq<Event>, h: int): Option<Event>
    decreases events
  {
    if |events| == 0 then None
    else if About(events[0], h) then Some(events[0])
    else FirstAbout(events[1..], h)
  }

  function CallCount(events: seq<Event>): nat
    decreases events
  {
    if |events| == 0 then 0 else (if events[0].Called? then 1 else 0) + CallCount(events[1..])
  }

  lemma {:induction false} FirstAboutConcat(a: seq<Event>, b: seq<Event>, h: int)
    ensures FirstAbout(a + b, h) == if FirstAbout(a, h).Some? then FirstAbout(a, h) else FirstAbout(b, h)
    ensures CallCount(a + b) == CallCount(a) + CallCount(b)
    decreases a
  {
    if |a| == 0 {
      assert a + b == b;
    } else {
      assert (a + b)[1..] == a[1..] + b;
      FirstAboutConcat(a[1..], b, h);
    }
  }

  lemma {:induction false} NoneAbout(events: seq<Event>, h: int)
    ensures FirstAbout(events, h).None? <==> forall e :: e in events ==> !About(e, h)
    ensures FirstAbout(events, h).Some? ==> About(FirstAbout(events, h).value, h) && FirstAbout(events, h).value in events
    decreases events
  {
    if |events| > 0 {
      NoneAbout(events[1..], h);
      assert events == [events[0]] + events[1..];
    }
  }

  lemma {:induction false} NoCalls(events: seq<Event>)
    requires forall e :: e in events ==> !e.Called?
    ensures CallCount(events) == 0
    decreases events
  {
    if |events| > 0 {
      NoCalls(events[1..]);
    }
  }

  // ---------------------------------------------------------------- what a callback can do

  /** What operations other than a pass do to the table: a slot active before keeps its entry
      unless its handle is cancelled, and new entries have new handles. */
  ghost predicate Evolves(l: Loop, l': Loop) {
    && |l'.slots| == |l.slots| && l.nextId <= l'.nextId && l.log <= l'.log
    && (forall e :: e in Since(l, l') ==> !e.Called?)
    && (forall j :: 0 <= j < |l.slots| && l.slots[j].active ==>
          l'.slots[j] == l.slots[j] || Cancelled(l.slots[j].id) in Since(l, l'))
    && (forall j :: 0 <= j < |l.slots| && l'.slots[j].active ==>
          l'.slots[j] == l.slots[j] || l.nextId <= l'.slots[j].id)
  }

  lemma DoneEvolves(l: Loop, op: Op)
    ensures Evolves(l, Done(l, op))
  {
    var l' := Done(l, op);
    match op
    case Elapse(us) => assert Since(l, l') == [];
    case AddTimer(_, _, _) => assert Since(l, l') == [l'.log[|l.log|]];
    case AddPoll(_) => assert Since(l, l') == [l'.log[|l.log|]];
    case Cancel(h) => assert Since(l, l') == [Cancelled(h)];
  }

  lemma SinceTrans(a: Loop, b: Loop, c: Loop)
    requires a.log <= b.log && b.log <= c.log
    ensures a.log <= c.log && Since(a, c) == Since(a, b) + Since(b, c)
  {}

  lemma EvolvesTrans(a: Loop, b: Loop, c: Loop)
    requires Evolves(a, b) && Evolves(b, c)
    ensures Evolves(a, c)
  {}

  lemma {:induction false} AllDoneEvolves(l: Loop, ops: seq<Op>)
    ensures Evolves(l, AllDone(l, ops))
    decreases ops
  {
    if |ops| > 0 {
      DoneEvolves(l, ops[0]);
      AllDoneEvolves(Done(l, ops[0]), ops[1..]);
      EvolvesTrans(l, Done(l, ops[0]), AllDone(l, ops));
    } else {
      assert Since(l, l) == [];
    }
  }

  // ---------------------------------------------------------------- the turn of one slot

  /** The state after the turn of slot `i`. */
  function Turn(l: Loop, i: nat, now: nat, world: World): Loop
    requires i < |l.slots|
  {
    if Runnable(l.slots[i], now) then var l1 := Fired(l, i, now); AllDone(l1, world(l1.log)) else l
  }

  lemma TurnEffect(l: Loop, i: nat, now: nat, world: World)
    requires Sound(l) && i < |l.slots|
    ensures var l2 := Turn(l, i, now, world);
            && Sound(l2) && |l2.slots| == |l.slots| && l.log <= l2.log && l.nextId <= l2.nextId
            && PassFrom(l, i, |l.slots|, now, world) == PassFrom(l2, i + 1, |l.slots|, now, world)
            && (forall j :: 0 <= j < |l.slots| && j != i && l.slots[j].active ==>
                  l2.slots[j] == l.slots[j] || Cancelled(l.slots[j].id) in Since(l, l2))
            && (forall j :: 0 <= j < |l.slots| && j != i && l2.slots[j].active ==>
                  l2.slots[j] == l.slots[j] || l.nextId <= l2.slots[j].id)
    ensures var l2 := Turn(l, i, now, world);
            if Runnable(l.slots[i], now) then
              && Since(l, l2) != [] && Since(l, l2)[0] == Called(l.slots[i].id, now)
              && forall e :: e in Since(l, l2)[1..] ==> !e.Called?
            else Since(l, l2) == []
  {
    if Runnable(l.slots[i], now) {
      var l1 := Fired(l, i, now);
      FiredSound(l, i, now);
      AllDoneSound(l1, world(l1.log));
      SameSlotCount(l1, world(l1.log));
      AllDoneEvolves(l1, world(l1.log));
      var l2 := AllDone(l1, world(l1.log));
      assert Since(l, l1) == [Called(l.slots[i].id, now)];
      SinceTrans(l, l1, l2);
      assert Since(l, l2)[1..] == Since(l1, l2);
    }
  }

  // ---------------------------------------------------------------- at most once

  /** Every handle called from slot `i` on sits in such a slot now, or does not exist yet. */
  ghost predicate Ahead(l: Loop, i: nat, h: int) {
    h >= l.nextId || exists j :: i <= j < |l.slots| && l.slots[j].active && l.slots[j].id == h
  }

  ghost predicate CallsDistinct(events: seq<Event>) {
    forall a, b :: 0 <= a < b < |events| && events[a].Called? && events[b].Called? ==> events[a].handle != events[b].handle
  }

  lemma AheadBefore(l: Loop, i: nat, now: nat, world: World, h: int)
    requires Sound(l) && i < |l.slots| && Ahead(Turn(l, i, now, world), i + 1, h)
    ensures Ahead(l, i + 1, h)
  {
    TurnEffect(l, i, now, world);
    var l2 := Turn(l, i, now, world);
    if h < l.nextId {
      var j :| i + 1 <= j < |l2.slots| && l2.slots[j].active && l2.slots[j].id == h;
      assert l2.slots[j] == l.slots[j];
    }
  }

  lemma HandleOnce(l: Loop, i: nat, j: nat)
    requires Sound(l) && i <= j < |l.slots| && l.slots[j].active
    ensures l.slots[j].id < l.nextId && !Ahead(l, j + 1, l.slots[j].id)
    ensures i < j && l.slots[i].active ==> l.slots[i].id != l.slots[j].id
  {}

  /** At most one call for each slot from `i` on, each made at `now`, none to the same handle. */
  ghost predicate CallsOnce(l: Loop, i: nat, now: nat, events: seq<Event>)
    requires i <= |l.slots|
  {
    && CallsDistinct(events)
    && (forall e :: e in events && e.Called? ==> e.at == now && Ahead(l, i, e.handle))
    && CallCount(events) <= |l.slots| - i
  }

  /** `mine` is what the turn of slot `i` adds to the log. */
  ghost predicate TurnEvents(l: Loop, i: nat, now: nat, mine: seq<Event>)
    requires i < |l.slots|
  {
    if Runnable(l.slots[i], now) then
      |mine| > 0 && mine[0] == Called(l.slots[i].id, now) && forall e :: e in mine[1..] ==> !e.Called?
    else mine == []
  }

  lemma TurnCallsOnce(l: Loop, i: nat, now: nat, mine: seq<Event>, rest: seq<Event>)
    requires Sound(l) && i < |l.slots| && TurnEvents(l, i, now, mine) && CallsOnce(l, i + 1, now, rest)
    ensures CallsOnce(l, i, now, mine + rest)
  {
    if Runnable(l.slots[i], now) {
      var h := l.slots[i].id;
      HandleOnce(l, i, i);
      NoCalls(mine[1..]);
      assert mine == [mine[0]] + mine[1..];
      FirstAboutConcat(mine, rest, h);
      var all := mine + rest;
      assert forall e :: e in mine && e.Called? ==> e == mine[0];
      assert forall a {:trigger all[a]} :: 0 < a < |mine| ==> all[a] in mine[1..];
      forall a | 0 <= a < |all| && all[a].Called? ensures a == 0 || (a >= |mine| && all[a].handle != h) {
        assert a >= |mine| ==> all[a] == rest[a - |mine|];
      }
      assert forall e :: e in all && e.Called? ==> e == mine[0] || e in rest;
    } else {
      assert mine + rest == rest;
    }
  }

  lemma CallsOnceBefore(l: Loop, i: nat, now: nat, world: World, rest: seq<Event>)
    requires Sound(l) && i < |l.slots| && |Turn(l, i, now, world).slots| == |l.slots|
    requires CallsOnce(Turn(l, i, now, world), i + 1, now, rest)
    ensures CallsOnce(l, i + 1, now, rest)
  {
    hide Sound, Turn, Ahead, CallsDistinct;
    forall e | e in rest && e.Called? ensures Ahead(l, i + 1, e.handle) {
      AheadBefore(l, i, now, world, e.handle);
    }
  }

  /** A pass makes at most one call per slot and calls no handle twice. */
  lemma {:induction false} PassCallsOnce(l: Loop, i: nat, now: nat, world: World)
    requires Sound(l) && i <= |l.slots|
    ensures var l' := PassFrom(l, i, |l.slots|, now, world);
            l.log <= l'.log && CallsOnce(l, i, now, Since(l, l'))
    decreases |l.slots| - i
  {
    var n := |l.slots|;
    var l' := PassFrom(l, i, n, now, world);
    if i == n {
      assert Since(l, l') == [];
    } else {
      hide Turn, CallsOnce, Ahead, PassFrom;
      var l2 := Turn(l, i, now, world);
      TurnEffect(l, i, now, world);
      PassCallsOnce(l2, i + 1, now, world);
      SinceTrans(l, l2, l');
      var rest := Since(l2, l');
      CallsOnceBefore(l, i, now, world, rest);
      TurnCallsOnce(l, i, now, Since(l, l2), rest);
    }
  }

  // ---------------------------------------------------------------- no starvation

  /** Until its slot's turn, an entry can only be lost by cancelling it. */
  lemma {:induction false} PassReaches(l: Loop, i: nat, j: nat, now: nat, world: World)
    requires Sound(l) && i <= j < |l.slots| && l.slots[j].active
    ensures var l' := PassFrom(l, i, |l.slots|, now, world);
            var first := FirstAbout(Since(l, l'), l.slots[j].id);
            && l.log <= l'.log
            && (Runnable(l.slots[j], now) ==> first == Some(Called(l.slots[j].id, now)) || first == Some(Cancelled(l.slots[j].id)))
            && (!Runnable(l.slots[j], now) ==> first.None? || first.value.Cancelled?)
    decreases j - i
  {
    hide Sound, PassFrom, Turn, Since;
    var n, h := |l.slots|, l.slots[j].id;
    var l' := PassFrom(l, i, n, now, world);
    var l2 := Turn(l, i, now, world);
    TurnEffect(l, i, now, world);
    PassCallsOnce(l2, i + 1, now, world);
    SinceTrans(l, l2, l');
    var mine, rest := Since(l, l2), Since(l2, l');
    FirstAboutConcat(mine, rest, h);
    NoneAbout(mine, h);
    NoneAbout(rest, h);
    HandleOnce(l, i, j);
    if i < j {
      if FirstAbout(mine, h).None? {
        assert l2.slots[j] == l.slots[j];
        PassReaches(l2, i + 1, j, now, world);
      } else {
        assert mine == [mine[0]] + mine[1..];
      }
    } else if Runnable(l.slots[j], now) {
      assert About(mine[0], h);
    }
  }

  lemma {:induction false} CancelledFirst(log: seq<Event>, n: nat, h: int, capacity: nat)
    requires Lawful(log, capacity) && n <= |log|
    requires h in Books(log[..n], capacity).issued
    requires FirstAbout(log[n..], h) == Some(Cancelled(h))
    ensures forall e :: e in log[n..] ==> !(e.Called? && e.handle == h)
    decreases |log| - n
  {
    assert log[n..] == [log[n]] + log[n + 1..];
    BooksAt(log, n, capacity);
    IssuedAccumulates(log[..n + 1], n, capacity);
    assert log[..n + 1][..n] == log[..n];
    if About(log[n], h) {
      DeadStaysDead(log, n + 1, h, capacity);
    } else {
      CancelledFirst(log, n + 1, h, capacity);
    }
  }

  /** The whole pass.  A handle that is active when the pass starts is called exactly when it is
      due at that time and no callback cancels it before its turn; in particular no amount of
      re-arming by other callbacks can keep it waiting. */
  lemma PassCallsExactlyDue(l: Loop, j: nat, world: World)
    requires Sound(l) && j < |l.slots| && l.slots[j].active
    ensures var h := l.slots[j].id;
            var events := Since(l, Pass(l, world));
            && (Called(h, l.clock) in events <==>
                Runnable(l.slots[j], l.clock) && FirstAbout(events, h) != Some(Cancelled(h)))
            && (Runnable(l.slots[j], l.clock) ==> FirstAbout(events, h).Some?)
            && forall e :: e in events && e.Called? && e.handle == h ==> e.at == l.clock
  {
    var h, now := l.slots[j].id, l.clock;
    var events := Since(l, Pass(l, world));
    PassReaches(l, 0, j, now, world);
    PassCallsOnce(l, 0, now, world);
    NoneAbout(events, h);
    if FirstAbout(events, h) == Some(Cancelled(h)) {
      var l' := Pass(l, world);
      PassSound(l, 0, |l.slots|, now, world);
      PassSameCount(l, 0, |l.slots|, now, world);
      assert l'.log[..|l.log|] == l.log;
      CancelledFirst(l'.log, |l.log|, h, |l.slots|);
    }
  }

  /** At most one call for each slot, and no handle called twice. */
  lemma PassBounded(l: Loop, world: World)
    requires Sound(l)
    ensures var events := Since(l, Pass(l, world));
            CallCount(events) <= |l.slots| && CallsDistinct(events)
  {
    PassCallsOnce(l, 0, l.clock, world);
  }
}
