/** The meaning of a scheduler log: a plain map from live handles to entries, updated event by
    event.  A log is lawful when every event is one this map allows. */
module TimerLedger {
  import opened EventLoop
  import opened Grid

  /** What a live handle stands for; a poll is due all the time. */
  datatype Entry = Timer(due: nat, period: nat) | Always

  datatype Ledger = Ledger(live: map<int, Entry>, issued: set<int>, lawful: bool)

  const EMPTY_LEDGER := Ledger(map[], {}, true)

  predicate Ripe(e: Entry, at: nat) {
    e.Always? || at >= e.due
  }

  function Book(g: Ledger, e: Event, capacity: nat): Ledger {
    match e
    case Issued(h, due, period, poll) =>
      // a handle is positive, new, and there is room for it
      Ledger(g.live[h := if poll then Always else Timer(due, period)], g.issued + {h},
             g.lawful && h > 0 && h !in g.issued && |g.live| < capacity)
    case Refused =>
      g.(lawful := g.lawful && |g.live| == capacity)
    case Cancelled(h) =>
      g.(live := g.live - {h})
    case Called(h, at) =>
      if h !in g.live || !Ripe(g.live[h], at) then g.(lawful := false)
      else match g.live[h]
        case Always => g
        case Timer(due, period) =>
          // a one-shot is used up; a repeating timer moves past the present by whole periods
          if period == 0 then g.(live := g.live - {h})
          else g.(live := g.live[h := Timer(Advance(due, period, at), period)])
  }

  function Books(log: seq<Event>, capacity: nat): Ledger {
    if |log| == 0 then EMPTY_LEDGER
    else Book(Books(log[..|log| - 1], capacity), log[|log| - 1], capacity)
  }

  lemma BooksSnoc(log: seq<Event>, e: Event, capacity: nat)
    ensures Books(log + [e], capacity) == Book(Books(log, capacity), e, capacity)
  {}

  // ---------------------------------------------------------------- consequences for logs

  ghost predicate Lawful(log: seq<Event>, capacity: nat) {
    Books(log, capacity).lawful
  }

  lemma {:induction false} LawfulPrefix(log: seq<Event>, n: nat, capacity: nat)
    requires Lawful(log, capacity) && n <= |log|
    ensures Lawful(log[..n], capacity)
    decreases |log|
  {
    if n < |log| {
      LawfulPrefix(log[..|log| - 1], n, capacity);
      assert log[..|log| - 1][..n] == log[..n];
    } else {
      assert log[..n] == log;
    }
  }

  lemma BookIssued(g: Ledger, e: Event, capacity: nat)
    ensures g.issued <= Book(g, e, capacity).issued
  {}

  lemma {:induction false} IssuedAccumulates(log: seq<Event>, n: nat, capacity: nat)
    requires n <= |log|
    ensures Books(log[..n], capacity).issued <= Books(log, capacity).issued
    decreases |log|
  {
    hide Book;
    if n < |log| {
      IssuedAccumulates(log[..|log| - 1], n, capacity);
      BookIssued(Books(log[..|log| - 1], capacity), log[|log| - 1], capacity);
      assert log[..|log| - 1][..n] == log[..n];
    } else {
      assert log[..n] == log;
    }
  }

  /** The event at `n` extends the books of the log before it. */
  lemma BooksAt(log: seq<Event>, n: nat, capacity: nat)
    requires n < |log|
    ensures Books(log[..n + 1], capacity) == Book(Books(log[..n], capacity), log[n], capacity)
  {
    assert log[..n + 1][..n] == log[..n];
  }

  lemma DeadStep(g: Ledger, e: Event, h: int, capacity: nat)
    requires Book(g, e, capacity).lawful && h in g.issued && h !in g.live
    ensures h !in Book(g, e, capacity).live && !(e.Called? && e.handle == h)
  {}

  /** A handle that has been issued and is no longer live never is again, and is not called. */
  lemma {:induction false} DeadStaysDead(log: seq<Event>, n: nat, h: int, capacity: nat)
    requires Lawful(log, capacity) && n <= |log|
    requires h in Books(log[..n], capacity).issued && h !in Books(log[..n], capacity).live
    ensures h !in Books(log, capacity).live
    ensures forall k :: n <= k < |log| ==> !(log[k].Called? && log[k].handle == h)
    decreases |log|
  {
    hide Book;
    if n == |log| {
      assert log[..n] == log;
    } else {
      var front := log[..|log| - 1];
      assert front[..n] == log[..n];
      LawfulPrefix(log, |log| - 1, capacity);
      DeadStaysDead(front, n, h, capacity);
      IssuedAccumulates(front, n, capacity);
      DeadStep(Books(front, capacity), log[|log| - 1], h, capacity);
    }
  }

  lemma {:induction false} IssuedInBooks(log: seq<Event>, a: nat, capacity: nat)
    requires a < |log| && log[a].Issued?
    ensures log[a].handle in Books(log, capacity).issued
  {
    BooksAt(log, a, capacity);
    IssuedAccumulates(log, a + 1, capacity);
  }

  /** A handle cancelled after it was issued is never called again. */
  lemma CancelledNeverCalled(log: seq<Event>, a: nat, b: nat, c: nat, capacity: nat)
    requires Lawful(log, capacity) && a < b < c < |log|
    requires log[a].Issued? && log[b] == Cancelled(log[a].handle)
    ensures !(log[c].Called? && log[c].handle == log[a].handle)
  {
    var h := log[a].handle;
    BooksAt(log, a, capacity);
    IssuedAccumulates(log[..b + 1], a + 1, capacity);
    assert log[..b + 1][..a + 1] == log[..a + 1];
    BooksAt(log, b, capacity);
    DeadStaysDead(log, b + 1, h, capacity);
  }

  /** No handle is issued twice. */
  lemma HandlesUnique(log: seq<Event>, a: nat, b: nat, capacity: nat)
    requires Lawful(log, capacity) && a < b < |log|
    requires log[a].Issued? && log[b].Issued?
    ensures log[a].handle != log[b].handle
  {
    BooksAt(log, a, capacity);
    IssuedAccumulates(log[..b], a + 1, capacity);
    assert log[..b][..a + 1] == log[..a + 1];
    BooksAt(log, b, capacity);
    LawfulPrefix(log, b + 1, capacity);
  }

  // ---------------------------------------------------------------- the life of one timer

  /** Time of the last call of `h` in the log, if any. */
  function LastCall(log: seq<Event>, h: int): (at: int)
    ensures at >= -1
  {
    if |log| == 0 then -1
    else match log[|log| - 1]
      case Called(g, at) => if g == h then at else LastCall(log[..|log| - 1], h)
      case _ => LastCall(log[..|log| - 1], h)
  }

  /** When a timer issued with first due time `due` is due next. */
  function DueNext(log: seq<Event>, h: int, due: nat, period: nat): nat
    requires period > 0
  {
    DueAfter(LastCall(log, h), due, period)
  }

  function DueAfter(last: int, due: nat, period: nat): nat
    requires period > 0
  {
    if last < due then due else NextPoint(due, period, last)
  }

  /** Due again exactly when it is past the first due time and, after a call at or after that
      time, a new period has begun. */
  lemma DueAfterIff(last: int, due: nat, period: nat, now: nat)
    requires period > 0
    ensures now >= DueAfter(last, due, period) <==>
            now >= due && (last < due || Elapsed(due, period, now) > Elapsed(due, period, last))
  {
    hide Elapsed, NextPoint;
    if due <= last {
      if last <= now {
        DueIffElapsed(due, period, last, now);
      } else {
        ElapsedBounds(due, period, last);
        if due <= now {
          ElapsedMonotonic(due, period, now, last);
        }
      }
      ElapsedBounds(due, period, last);
    }
  }

  lemma AdvanceDue(last: int, due: nat, period: nat, at: nat)
    requires period > 0 && at >= DueAfter(last, due, period)
    ensures Advance(DueAfter(last, due, period), period, at) == DueAfter(at, due, period)
  {
    if last < due {
      AdvanceToGrid(due, period, 0, at);
    } else {
      ElapsedBounds(due, period, last);
      AdvanceToGrid(due, period, Elapsed(due, period, last) + 1, at);
    }
  }

  /** As long as a timer is live its entry is a function of when it was first due and of its
      last call: a one-shot has not been called, and a repeating timer is due at the first point
      of its original grid after the last call. */
  ghost predicate EntryLaw(g: Ledger, since: seq<Event>, h: int, due: nat, period: nat) {
    h in g.live ==>
      if period == 0 then g.live[h] == Timer(due, 0) && LastCall(since, h) == -1
      else g.live[h] == Timer(DueNext(since, h, due, period), period)
  }

  lemma EntryLawStep(g: Ledger, e: Event, since: seq<Event>, h: int, due: nat, period: nat, capacity: nat)
    requires h in g.issued && Book(g, e, capacity).lawful
    requires EntryLaw(g, since, h, due, period)
    ensures EntryLaw(Book(g, e, capacity), since + [e], h, due, period)
  {
    assert (since + [e])[..|since|] == since;
    if e.Called? && e.handle == h && period > 0 {
      AdvanceDue(LastCall(since, h), due, period, e.at);
    }
  }

  lemma {:induction false} TimerEntry(log: seq<Event>, a: nat, capacity: nat)
    requires Lawful(log, capacity) && a < |log| && log[a].Issued? && !log[a].poll
    ensures EntryLaw(Books(log, capacity), log[a + 1..], log[a].handle, log[a].due, log[a].period)
    decreases |log|
  {
    hide EntryLaw, Book;
    var n := |log| - 1;
    var front := log[..n];
    LawfulPrefix(log, n, capacity);
    if a == n {
      FreshEntryLaw(Books(front, capacity), log[n], capacity);
      assert log[a + 1..] == [];
    } else {
      TimerEntry(front, a, capacity);
      IssuedInBooks(front, a, capacity);
      EntryLawStep(Books(front, capacity), log[n], front[a + 1..], log[a].handle, log[a].due, log[a].period, capacity);
      assert log[a + 1..] == front[a + 1..] + [log[n]];
    }
  }

  lemma FreshEntryLaw(g: Ledger, e: Event, capacity: nat)
    requires e.Issued? && !e.poll
    ensures EntryLaw(Book(g, e, capacity), [], e.handle, e.due, e.period)
  {}

  lemma {:induction false} NeverCalled(since: seq<Event>, h: int)
    requires LastCall(since, h) == -1
    ensures forall e :: e in since ==> !(e.Called? && e.handle == h)
    decreases |since|
  {
    if |since| > 0 {
      var front := since[..|since| - 1];
      NeverCalled(front, h);
      assert since == front + [since[|since| - 1]];
    }
  }

  /** A one-shot is called at most once, and not before it is due. */
  lemma OneShotOnce(log: seq<Event>, a: nat, b: nat, capacity: nat)
    requires Lawful(log, capacity) && a < b < |log|
    requires log[a].Issued? && !log[a].poll && log[a].period == 0
    requires log[b].Called? && log[b].handle == log[a].handle
    ensures log[b].at >= log[a].due
    ensures forall c :: a < c < |log| && c != b ==> !(log[c].Called? && log[c].handle == log[a].handle)
  {
    var h := log[a].handle;
    LawfulPrefix(log, b, capacity);
    LawfulPrefix(log, b + 1, capacity);
    BooksAt(log, b, capacity);
    TimerEntry(log[..b], a, capacity);
    IssuedInBooks(log[..b], a, capacity);
    DeadStaysDead(log, b + 1, h, capacity);
    NeverCalled(log[..b][a + 1..], h);
    forall c | a < c < b ensures !(log[c].Called? && log[c].handle == h) {
      assert log[..b][a + 1..][c - a - 1] == log[c];
    }
  }

  /** A repeating timer is never called early: between two of its calls a new period of its
      original grid has begun, so lateness of one call never shifts the next. */
  lemma RepeatOnGrid(log: seq<Event>, a: nat, b: nat, capacity: nat)
    requires Lawful(log, capacity) && a < b < |log|
    requires log[a].Issued? && !log[a].poll && log[a].period > 0
    requires log[b].Called? && log[b].handle == log[a].handle
    ensures log[b].at >= log[a].due
    ensures var last := LastCall(log[a + 1..b], log[a].handle);
            log[a].due <= last ==>
              Elapsed(log[a].due, log[a].period, log[b].at) > Elapsed(log[a].due, log[a].period, last)
  {
    var h, due, period := log[a].handle, log[a].due, log[a].period;
    LawfulPrefix(log, b, capacity);
    LawfulPrefix(log, b + 1, capacity);
    BooksAt(log, b, capacity);
    TimerEntry(log[..b], a, capacity);
    assert log[..b][a + 1..] == log[a + 1..b];
    var last := LastCall(log[a + 1..b], h);
    if due <= last {
      ElapsedBounds(due, period, last);
      DueIffElapsed(due, period, last, log[b].at);
    }
  }
}
