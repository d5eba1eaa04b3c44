/** In which order a pass calls its callbacks. */
module EventLoopOrder {
  import opened AddedTimers
  import opened EventLoop
  import opened EventLoopPass
  import opened EventLoopRuns
  import opened TimerLedger

  /** Whenever both are called, the first handle is called first. */
  ghost predicate Before(events: seq<Event>, h: int, g: int) {
    forall a, b ::
      (0 <= a < |events| && 0 <= b < |events| && events[a].Called? && events[a].handle == h && events[b].Called? && events[b].handle == g)
      ==> a < b
  }

  /** Every call in the rest of a pass is of a handle that is still ahead. */
  lemma CalledAhead(l: Loop, i: nat, now: nat, world: World, h: int)
    requires Sound(l) && i <= |l.slots|
    ensures CalledIn(Since(l, PassFrom(l, i, |l.slots|, now, world)), h) ==> Ahead(l, i, h)
  {
    hide PassFrom, Since, CallsDistinct, Ahead, Sound;
    PassCallsOnce(l, i, now, world);
  }

  /** What is ahead after the turn of a slot, and existed before, is where it was. */
  lemma StillThere(l: Loop, i: nat, j: nat, now: nat, world: World)
    requires Sound(l) && i < |l.slots| && j < |l.slots| && l.slots[j].active
    ensures var l2 := Turn(l, i, now, world);
            && |l2.slots| == |l.slots| && Sound(l2)
            && (Ahead(l2, i + 1, l.slots[j].id) ==> i < j && l2.slots[j] == l.slots[j])
  {
    hide Turn, PassFrom;
    TurnEffect(l, i, now, world);
    NoneNew(l);
    var l2, h := Turn(l, i, now, world), l.slots[j].id;
    if Ahead(l2, i + 1, h) {
      var k :| i + 1 <= k < |l2.slots| && l2.slots[k].active && l2.slots[k].id == h;
      assert l2.slots[k] == l.slots[k];
      HandleOnce(l, if k < j then k else j, if k < j then j else k);
    }
  }

  /** The turn of a slot calls nothing but that slot's handle. */
  lemma TurnCalls(l: Loop, i: nat, now: nat, world: World)
    requires Sound(l) && i < |l.slots|
    ensures var mine := Since(l, Turn(l, i, now, world));
            forall k :: 0 <= k < |mine| && mine[k].Called? ==> k == 0 && mine[k].handle == l.slots[i].id && l.slots[i].active
  {
    hide Turn, PassFrom, Sound;
    TurnEffect(l, i, now, world);
    var mine := Since(l, Turn(l, i, now, world));
    assert forall k :: 0 < k < |mine| ==> mine[k] == mine[1..][k - 1];
  }

  lemma BeforeConcat(mine: seq<Event>, rest: seq<Event>, h: int, g: int, own: int)
    requires h != g && own != g
    requires forall k :: 0 <= k < |mine| && mine[k].Called? ==> k == 0 && mine[k].handle == own
    requires Before(rest, h, g) && (own == h ==> !CalledIn(rest, h))
    ensures Before(mine + rest, h, g)
  {
    var all := mine + rest;
    forall a, b | 0 <= a < |all| && 0 <= b < |all| && all[a].Called? && all[a].handle == h && all[b].Called? && all[b].handle == g
      ensures a < b
    {
      assert b >= |mine| && all[b] == rest[b - |mine|];
      if a >= |mine| {
        assert all[a] == rest[a - |mine|];
      }
    }
  }

  lemma NotCalledBefore(events: seq<Event>, h: int, g: int)
    requires !CalledIn(events, h) || !CalledIn(events, g)
    ensures Before(events, h, g)
  {}

  lemma {:induction false} RestInOrder(l: Loop, i: nat, j: nat, k: nat, now: nat, world: World)
    requires Sound(l) && i <= j < k < |l.slots| && l.slots[j].active && l.slots[k].active
    ensures Before(Since(l, PassFrom(l, i, |l.slots|, now, world)), l.slots[j].id, l.slots[k].id)
    decreases |l.slots| - i
  {
    hide Turn, PassFrom, Before, Ahead, CalledIn, Sound, Since;
    var n, h, g := |l.slots|, l.slots[j].id, l.slots[k].id;
    var l2, l' := Turn(l, i, now, world), PassFrom(l, i, n, now, world);
    TurnEffect(l, i, now, world);
    StillThere(l, i, j, now, world);
    StillThere(l, i, k, now, world);
    HandleOnce(l, j, k);
    HandleOnce(l, i, k);
    TurnCalls(l, i, now, world);
    PassCallsOnce(l2, i + 1, now, world);
    SinceTrans(l, l2, l');
    var mine, rest := Since(l, l2), Since(l2, l');
    CalledAhead(l2, i + 1, now, world, h);
    CalledAhead(l2, i + 1, now, world, g);
    if CalledIn(rest, h) && CalledIn(rest, g) {
      RestInOrder(l2, i + 1, j, k, now, world);
    } else {
      NotCalledBefore(rest, h, g);
    }
    NoneNew(l);
    HandleOnce(l, i, j);
    BeforeConcat(mine, rest, h, g, if l.slots[i].active then l.slots[i].id else l.nextId);
  }

  /** A pass calls the handles that are active when it starts in the order of their slots. */
  lemma PassInSlotOrder(l: Loop, j: nat, k: nat, world: World)
    requires Sound(l) && j < k < |l.slots| && l.slots[j].active && l.slots[k].active
    ensures Before(Since(l, Pass(l, world)), l.slots[j].id, l.slots[k].id)
  {
    hide PassFrom, Before, Sound, Since;
    RestInOrder(l, 0, j, k, l.clock, world);
  }
}
