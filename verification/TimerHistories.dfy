/** Exactly when a timer is called, over every run of the scheduler. */
module TimerHistories {
  import opened EventLoop
  import opened EventLoopPass
  import opened EventLoopRuns
  import opened Grid
  import opened TimerLedger
  import opened Wrappers

  /** The slot that holds the handle has something to call. */
  predicate HasCallback(l: Loop, h: int) {
    var j := EventLoop.Find(l.slots, h);
    j < |l.slots| && l.slots[j].hasCallback
  }

  // ---------------------------------------------------------------- what is live

  /** A timer lives until it is cancelled or, being a one-shot, called. */
  ghost predicate LiveLaw(g: Ledger, since: seq<Event>, h: int, period: nat) {
    h in g.live <==> Cancelled(h) !in since && (period == 0 ==> LastCall(since, h) == -1)
  }

  lemma LiveLawStep(g: Ledger, e: Event, since: seq<Event>, h: int, due: nat, period: nat, capacity: nat)
    requires h in g.issued && Book(g, e, capacity).lawful
    requires EntryLaw(g, since, h, due, period) && LiveLaw(g, since, h, period)
    ensures LiveLaw(Book(g, e, capacity), since + [e], h, period)
  {
    assert (since + [e])[..|since|] == since;
  }

  lemma FreshLiveLaw(g: Ledger, e: Event, capacity: nat)
    requires e.Issued?
    ensures LiveLaw(Book(g, e, capacity), [], e.handle, e.period)
  {}

  lemma {:induction false} TimerLives(log: seq<Event>, a: nat, capacity: nat)
    requires Lawful(log, capacity) && a < |log| && log[a].Issued? && !log[a].poll
    ensures LiveLaw(Books(log, capacity), log[a + 1..], log[a].handle, log[a].period)
    decreases |log|
  {
    hide EntryLaw, LiveLaw, Book;
    var n := |log| - 1;
    var front := log[..n];
    LawfulPrefix(log, n, capacity);
    if a == n {
      FreshLiveLaw(Books(front, capacity), log[n], capacity);
      assert log[a + 1..] == [];
    } else {
      TimerLives(front, a, capacity);
      TimerEntry(front, a, capacity);
      IssuedInBooks(front, a, capacity);
      LiveLawStep(Books(front, capacity), log[n], front[a + 1..], log[a].handle, log[a].due, log[a].period, capacity);
      assert log[a + 1..] == front[a + 1..] + [log[n]];
    }
  }

  // ---------------------------------------------------------------- what a pass calls

  /** A pass calls an issued handle exactly when it is live, has a callback, is due, and is not
      cancelled by another callback before its turn. */
  lemma CalledIffRipe(l: Loop, h: int, world: World)
    requires Sound(l) && h in Books(l.log, |l.slots|).issued
    ensures var live := Books(l.log, |l.slots|).live;
            var events := Since(l, Pass(l, world));
            Called(h, l.clock) in events <==>
            h in live && HasCallback(l, h) && Ripe(live[h], l.clock) && FirstAbout(events, h) != Some(Cancelled(h))
  {
    hide Pass, FirstAbout, Book, Books;
    var n := |l.slots|;
    var live := Books(l.log, n).live;
    if h in live {
      var j := EventLoop.Find(l.slots, h);
      assert Holds(l.slots, j, h);
      PassCallsExactlyDue(l, j, world);
    } else {
      DeadNotCalled(l, h, world);
    }
  }

  lemma DeadNotCalled(l: Loop, h: int, world: World)
    requires Sound(l) && h in Books(l.log, |l.slots|).issued && h !in Books(l.log, |l.slots|).live
    ensures Called(h, l.clock) !in Since(l, Pass(l, world))
  {
    hide Books;
    var n, l' := |l.slots|, Pass(l, world);
    PassSound(l, 0, n, l.clock, world);
    PassSameCount(l, 0, n, l.clock, world);
    PassCallsOnce(l, 0, l.clock, world);
    assert l'.log[..|l.log|] == l.log;
    DeadStaysDead(l'.log, |l.log|, h, n);
  }

  /** The grid law over every run: a pass calls a repeating timer exactly when it has not been
      cancelled, it is past its first due time, and a new period has begun since its last call;
      except if a callback cancels it earlier in the same pass. */
  lemma RepeatCalledIff(maxCallbacks: nat, cs: seq<Command>, a: nat, world: World)
    ensures var l := Run(Created(maxCallbacks), cs);
            a < |l.log| && l.log[a].Issued? && !l.log[a].poll && l.log[a].period > 0 ==>
              var h, due, period, since := l.log[a].handle, l.log[a].due, l.log[a].period, l.log[a + 1..];
              var last, events := LastCall(since, h), Since(l, Pass(l, world));
              Called(h, l.clock) in events <==>
              && Cancelled(h) !in since && HasCallback(l, h)
              && l.clock >= due && (last < due || Elapsed(due, period, l.clock) > Elapsed(due, period, last))
              && FirstAbout(events, h) != Some(Cancelled(h))
  {
    hide Run, Created, Pass, Since, FirstAbout, Books, Sound, HasCallback, Elapsed;
    var l := Run(Created(maxCallbacks), cs);
    if a < |l.log| && l.log[a].Issued? && !l.log[a].poll && l.log[a].period > 0 {
      ReachedSound(maxCallbacks, cs);
      var e := l.log[a];
      TimerLives(l.log, a, maxCallbacks);
      TimerEntry(l.log, a, maxCallbacks);
      IssuedInBooks(l.log, a, maxCallbacks);
      CalledIffRipe(l, e.handle, world);
      DueAfterIff(LastCall(l.log[a + 1..], e.handle), e.due, e.period, l.clock);
    }
  }

  /** A pass calls a one-shot exactly when it has been neither cancelled nor called and is due;
      except if a callback cancels it earlier in the same pass. */
  lemma OneShotCalledIff(maxCallbacks: nat, cs: seq<Command>, a: nat, world: World)
    ensures var l := Run(Created(maxCallbacks), cs);
            a < |l.log| && l.log[a].Issued? && !l.log[a].poll && l.log[a].period == 0 ==>
              var h, since := l.log[a].handle, l.log[a + 1..];
              var events := Since(l, Pass(l, world));
              Called(h, l.clock) in events <==>
              && Cancelled(h) !in since && LastCall(since, h) == -1 && HasCallback(l, h)
              && l.clock >= l.log[a].due
              && FirstAbout(events, h) != Some(Cancelled(h))
  {
    hide Run, Created, Pass, Since, FirstAbout, Books, Sound, HasCallback;
    var l := Run(Created(maxCallbacks), cs);
    if a < |l.log| && l.log[a].Issued? && !l.log[a].poll && l.log[a].period == 0 {
      ReachedSound(maxCallbacks, cs);
      TimerLives(l.log, a, maxCallbacks);
      TimerEntry(l.log, a, maxCallbacks);
      IssuedInBooks(l.log, a, maxCallbacks);
      CalledIffRipe(l, l.log[a].handle, world);
    }
  }
}
