/** Timers and polls from the moment they are added, over every run: when passes call them. */
module AddedTimers {
  import opened EventLoop
  import opened EventLoopPass
  import opened EventLoopRuns
  import opened Grid
  import opened TimerHistories
  import opened TimerLedger
  import opened Wrappers

  ghost predicate Room(l: Loop) {
    exists i :: 0 <= i < |l.slots| && !l.slots[i].active
  }

  /** Every slot that holds the handle has a callback exactly if `cb` says so. */
  ghost predicate Carries(l: Loop, h: int, cb: bool) {
    h < l.nextId && forall j :: 0 <= j < |l.slots| && l.slots[j].active && l.slots[j].id == h ==> l.slots[j].hasCallback == cb
  }

  // ---------------------------------------------------------------- what adding does

  /** A timer added at time t with delay d is first due at t + d. */
  lemma AddTimerIssues(l: Loop, delay: nat, period: nat, cb: bool)
    requires Sound(l)
    ensures var l' := Done(l, AddTimer(delay, period, cb));
            if Room(l) then
              l'.log == l.log + [Issued(l.nextId, l.clock + delay, period, false)] && Carries(l', l.nextId, cb)
            else l'.log == l.log + [Refused]
  {
    hide Books;
    NoneNew(l);
  }

  /** A poll is issued as one, whatever time its slot was last due. */
  lemma AddPollIssues(l: Loop, cb: bool)
    requires Sound(l)
    ensures var l' := Done(l, AddPoll(cb));
            if Room(l) then
              && |l'.log| == |l.log| + 1 && l.log <= l'.log
              && l'.log[|l.log|].Issued? && l'.log[|l.log|].handle == l.nextId && l'.log[|l.log|].poll
              && Carries(l', l.nextId, cb)
            else l'.log == l.log + [Refused]
  {
    hide Books;
    NoneNew(l);
  }

  /** No slot holds the next handle yet. */
  lemma NoneNew(l: Loop)
    requires Sound(l)
    ensures forall j :: 0 <= j < |l.slots| && l.slots[j].active ==> l.slots[j].id < l.nextId
  {}

  // ---------------------------------------------------------------- callbacks stay

  lemma OpsCarry(l: Loop, ops: seq<Op>, h: int, cb: bool)
    requires Carries(l, h, cb)
    ensures Carries(AllDone(l, ops), h, cb)
  {
    hide AllDone;
    AllDoneEvolves(l, ops);
  }

  lemma FiredCarries(l: Loop, i: nat, now: nat, h: int, cb: bool)
    requires Carries(l, h, cb) && i < |l.slots|
    ensures Carries(Fired(l, i, now), h, cb)
  {}

  lemma {:induction false} PassCarries(l: Loop, i: nat, n: nat, now: nat, world: World, h: int, cb: bool)
    requires Carries(l, h, cb) && |l.slots| == n && i <= n
    ensures Carries(PassFrom(l, i, n, now, world), h, cb)
    decreases n - i
  {
    hide Carries, Fired, AllDone;
    if i < n {
      if Runnable(l.slots[i], now) {
        var l1 := Fired(l, i, now);
        FiredCarries(l, i, now, h, cb);
        FiredSize(l, i, now);
        OpsCarry(l1, world(l1.log), h, cb);
        SameSlotCount(l1, world(l1.log));
        PassCarries(AllDone(l1, world(l1.log)), i + 1, n, now, world, h, cb);
      } else {
        PassCarries(l, i + 1, n, now, world, h, cb);
      }
    }
  }

  lemma FiredSize(l: Loop, i: nat, now: nat)
    requires i < |l.slots|
    ensures |Fired(l, i, now).slots| == |l.slots|
  {}

  lemma StepCarries(l: Loop, c: Command, h: int, cb: bool)
    requires Carries(l, h, cb)
    ensures Carries(Step(l, c), h, cb)
  {
    hide Carries, PassFrom;
    match c
    case Do(op) =>
      OpsCarry(l, [op], h, cb);
      assert AllDone(l, [op]) == AllDone(Done(l, op), []);
    case Tick(world) => PassCarries(l, 0, |l.slots|, l.clock, world, h, cb);
  }

  lemma {:induction false} RunCarries(l: Loop, cs: seq<Command>, h: int, cb: bool)
    requires Carries(l, h, cb)
    ensures Carries(Run(l, cs), h, cb)
    decreases cs
  {
    hide Carries, Step;
    if |cs| > 0 {
      StepCarries(l, cs[0], h, cb);
      RunCarries(Step(l, cs[0]), cs[1..], h, cb);
    }
  }

  lemma CarriedCallback(l: Loop, h: int, cb: bool)
    requires Carries(l, h, cb)
    ensures HasCallback(l, h) ==> cb
    ensures cb && EventLoop.Find(l.slots, h) < |l.slots| ==> HasCallback(l, h)
  {}

  // ---------------------------------------------------------------- runs

  lemma {:induction false} RunConcat(l: Loop, a: seq<Command>, b: seq<Command>)
    ensures Run(l, a + b) == Run(Run(l, a), b)
    decreases a
  {
    hide Step;
    if |a| == 0 {
      assert a + b == b;
    } else {
      assert (a + b)[1..] == a[1..] + b;
      RunConcat(Step(l, a[0]), a[1..], b);
    }
  }

  lemma {:induction false} RunLogGrows(l: Loop, cs: seq<Command>)
    requires Sound(l)
    ensures l.log <= Run(l, cs).log
    decreases cs
  {
    hide Sound;
    if |cs| > 0 {
      StepLogGrows(l, cs[0]);
      RunLogGrows(Step(l, cs[0]), cs[1..]);
    }
  }

  lemma StepLogGrows(l: Loop, c: Command)
    requires Sound(l)
    ensures Sound(Step(l, c)) && l.log <= Step(l, c).log
  {
    hide Sound, PassFrom, Evolves;
    match c
    case Do(op) =>
      DoneSound(l, op);
      LogGrows(l, op);
    case Tick(world) =>
      PassSound(l, 0, |l.slots|, l.clock, world);
      PassCallsOnce(l, 0, l.clock, world);
  }

  lemma LogGrows(l: Loop, op: Op)
    ensures l.log <= Done(l, op).log
  {
    DoneEvolves(l, op);
  }

  /** The state right before an addition, and the state some time after it. */
  lemma AfterAdding(maxCallbacks: nat, before: seq<Command>, op: Op, after: seq<Command>)
    ensures var l0 := Run(Created(maxCallbacks), before);
            var l1 := Done(l0, op);
            var l := Run(Created(maxCallbacks), before + [Do(op)] + after);
            && Sound(l0) && l == Run(l1, after) && l1.log <= l.log
            && Sound(l) && |l.slots| == maxCallbacks && Lawful(l.log, maxCallbacks)
  {
    hide Run, Sound, Created, Done;
    var cs := before + [Do(op)];
    var l0 := Run(Created(maxCallbacks), before);
    ReachedSound(maxCallbacks, before);
    ReachedSound(maxCallbacks, cs + after);
    RunConcat(Created(maxCallbacks), cs, after);
    RunConcat(Created(maxCallbacks), before, [Do(op)]);
    RunOne(l0, Do(op));
    DoneSound(l0, op);
    RunLogGrows(Done(l0, op), after);
  }

  lemma RunOne(l: Loop, c: Command)
    ensures Run(l, [c]) == Step(l, c)
  {
    hide Step;
    assert [c][1..] == [];
  }

  /** Whether the events contain a call of the handle. */
  predicate CalledIn(events: seq<Event>, h: int) {
    exists i :: 0 <= i < |events| && events[i].Called? && events[i].handle == h
  }

  lemma {:induction false} LastCallIff(since: seq<Event>, h: int)
    requires forall e :: e in since && e.Called? ==> e.at >= 0
    ensures LastCall(since, h) == -1 <==> !CalledIn(since, h)
    decreases |since|
  {
    if |since| > 0 {
      var front, e := since[..|since| - 1], since[|since| - 1];
      LastCallIff(front, h);
      assert since == front + [e];
      if CalledIn(front, h) {
        var i :| 0 <= i < |front| && front[i].Called? && front[i].handle == h;
        assert since[i] == front[i];
      }
    }
  }

  /** A live handle sits in a slot, whose callback is the one it was added with. */
  lemma LiveCarried(l: Loop, h: int, cb: bool)
    requires Sound(l) && Carries(l, h, cb) && h in Books(l.log, |l.slots|).live
    ensures HasCallback(l, h) == cb
  {
    assert Holds(l.slots, EventLoop.Find(l.slots, h), h);
    CarriedCallback(l, h, cb);
  }

  /** A one-shot added at time t with delay d is called by a pass at time c exactly when c is at
      least t + d and it has been neither called nor cancelled since; unless an earlier callback
      of the same pass cancels it. */
  lemma OneShotAdded(maxCallbacks: nat, before: seq<Command>, delay: nat, cb: bool, after: seq<Command>, world: World)
    requires Room(Run(Created(maxCallbacks), before))
    ensures var l0 := Run(Created(maxCallbacks), before);
            var l := Run(Created(maxCallbacks), before + [Do(AddTimer(delay, 0, cb))] + after);
            && |l0.log| + 1 <= |l.log|
            && var h, since, events := l0.nextId, l.log[|l0.log| + 1..], Since(l, Pass(l, world));
               Called(h, l.clock) in events <==>
               && cb && l.clock >= l0.clock + delay && !CalledIn(since, h) && Cancelled(h) !in since
               && FirstAbout(events, h) != Some(Cancelled(h))
  {
    hide Run, Created, Pass, Since, FirstAbout, Books, Sound, HasCallback, Done, Carries, Room;
    var l0 := Run(Created(maxCallbacks), before);
    var op := AddTimer(delay, 0, cb);
    var l := Run(Created(maxCallbacks), before + [Do(op)] + after);
    var h, a := l0.nextId, |l0.log|;
    AfterAdding(maxCallbacks, before, op, after);
    AddTimerIssues(l0, delay, 0, cb);
    RunCarries(Done(l0, op), after, h, cb);
    assert l.log[a] == Issued(h, l0.clock + delay, 0, false);
    TimerLives(l.log, a, maxCallbacks);
    TimerEntry(l.log, a, maxCallbacks);
    IssuedInBooks(l.log, a, maxCallbacks);
    CalledIffRipe(l, h, world);
    LastCallIff(l.log[a + 1..], h);
    if h in Books(l.log, maxCallbacks).live {
      LiveCarried(l, h, cb);
    }
  }

  /** A repeating timer added at time t with delay d and period p is called by a pass at time c
      exactly when it has not been cancelled since and either has not been called yet and c is at
      least t + d, or floor((c - (t + d)) / p) has grown since its last call; unless an earlier
      callback of the same pass cancels it. */
  lemma RepeatAdded(maxCallbacks: nat, before: seq<Command>, delay: nat, period: nat, cb: bool, after: seq<Command>, world: World)
    requires period > 0 && Room(Run(Created(maxCallbacks), before))
    ensures var l0 := Run(Created(maxCallbacks), before);
            var l := Run(Created(maxCallbacks), before + [Do(AddTimer(delay, period, cb))] + after);
            && |l0.log| + 1 <= |l.log|
            && var h, first, since, events := l0.nextId, l0.clock + delay, l.log[|l0.log| + 1..], Since(l, Pass(l, world));
               var last := LastCall(since, h);
               Called(h, l.clock) in events <==>
               && cb && l.clock >= first && Cancelled(h) !in since
               && (last < first || (l.clock - first) / period > (last - first) / period)
               && FirstAbout(events, h) != Some(Cancelled(h))
  {
    hide Run, Created, Pass, Since, FirstAbout, Books, Sound, HasCallback, Done, Carries, Room;
    var l0 := Run(Created(maxCallbacks), before);
    var op := AddTimer(delay, period, cb);
    var l := Run(Created(maxCallbacks), before + [Do(op)] + after);
    var h, a := l0.nextId, |l0.log|;
    AfterAdding(maxCallbacks, before, op, after);
    AddTimerIssues(l0, delay, period, cb);
    RunCarries(Done(l0, op), after, h, cb);
    assert l.log[a] == Issued(h, l0.clock + delay, period, false);
    RepeatCalled(l, a, cb, world);
  }

  lemma RepeatCalled(l: Loop, a: nat, cb: bool, world: World)
    requires Sound(l) && Lawful(l.log, |l.slots|)
    requires a < |l.log| && l.log[a].Issued? && !l.log[a].poll && l.log[a].period > 0 && Carries(l, l.log[a].handle, cb)
    ensures var h, first, period, since, events := l.log[a].handle, l.log[a].due, l.log[a].period, l.log[a + 1..], Since(l, Pass(l, world));
            var last := LastCall(since, h);
            Called(h, l.clock) in events <==>
            && cb && l.clock >= first && Cancelled(h) !in since
            && (last < first || (l.clock - first) / period > (last - first) / period)
            && FirstAbout(events, h) != Some(Cancelled(h))
  {
    hide Pass, Since, FirstAbout, Books, Sound, HasCallback, Carries, Lawful;
    var e, n := l.log[a], |l.slots|;
    TimerLives(l.log, a, n);
    TimerEntry(l.log, a, n);
    IssuedInBooks(l.log, a, n);
    CalledIffRipe(l, e.handle, world);
    DueAfterIff(LastCall(l.log[a + 1..], e.handle), e.due, e.period, l.clock);
    if e.handle in Books(l.log, n).live {
      LiveCarried(l, e.handle, cb);
    }
  }

  // ---------------------------------------------------------------- polls

  /** A poll lives until it is cancelled. */
  ghost predicate PollLaw(g: Ledger, since: seq<Event>, h: int) {
    if Cancelled(h) in since then h !in g.live else h in g.live && g.live[h] == Always
  }

  lemma PollLawStep(g: Ledger, e: Event, since: seq<Event>, h: int, capacity: nat)
    requires h in g.issued && Book(g, e, capacity).lawful && PollLaw(g, since, h)
    ensures PollLaw(Book(g, e, capacity), since + [e], h)
  {}

  lemma {:induction false} PollLives(log: seq<Event>, a: nat, capacity: nat)
    requires Lawful(log, capacity) && a < |log| && log[a].Issued? && log[a].poll
    ensures PollLaw(Books(log, capacity), log[a + 1..], log[a].handle)
    decreases |log|
  {
    hide PollLaw, Book;
    var n := |log| - 1;
    var front := log[..n];
    LawfulPrefix(log, n, capacity);
    if a == n {
      FreshPoll(Books(front, capacity), log[n], capacity);
      assert log[a + 1..] == [];
    } else {
      PollLives(front, a, capacity);
      IssuedInBooks(front, a, capacity);
      PollLawStep(Books(front, capacity), log[n], front[a + 1..], log[a].handle, capacity);
      assert log[a + 1..] == front[a + 1..] + [log[n]];
    }
  }

  lemma FreshPoll(g: Ledger, e: Event, capacity: nat)
    requires e.Issued? && e.poll
    ensures PollLaw(Book(g, e, capacity), [], e.handle)
  {}

  /** An added poll is called by every pass until it is cancelled; unless an earlier callback of
      the same pass cancels it. */
  lemma PollAddedCalled(maxCallbacks: nat, before: seq<Command>, cb: bool, after: seq<Command>, world: World)
    requires Room(Run(Created(maxCallbacks), before))
    ensures var l0 := Run(Created(maxCallbacks), before);
            var l := Run(Created(maxCallbacks), before + [Do(AddPoll(cb))] + after);
            && |l0.log| + 1 <= |l.log|
            && var h, since, events := l0.nextId, l.log[|l0.log| + 1..], Since(l, Pass(l, world));
               Called(h, l.clock) in events <==> cb && Cancelled(h) !in since && FirstAbout(events, h) != Some(Cancelled(h))
  {
    hide Run, Created, Pass, Since, FirstAbout, Books, Sound, HasCallback, Done, Carries, Room;
    var l0 := Run(Created(maxCallbacks), before);
    var op := AddPoll(cb);
    var l := Run(Created(maxCallbacks), before + [Do(op)] + after);
    var h, a := l0.nextId, |l0.log|;
    AfterAdding(maxCallbacks, before, op, after);
    AddPollIssues(l0, cb);
    RunCarries(Done(l0, op), after, h, cb);
    assert l.log[a] == Done(l0, op).log[a];
    PollLives(l.log, a, maxCallbacks);
    IssuedInBooks(l.log, a, maxCallbacks);
    CalledIffRipe(l, h, world);
    if h in Books(l.log, maxCallbacks).live {
      LiveCarried(l, h, cb);
    }
  }
}
