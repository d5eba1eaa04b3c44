/** The cooperative scheduler: a fixed table of slots for timers and polls.

    Callbacks are arbitrary: what a callback does when it is called is a script of operations
    on the scheduler that may depend on everything that has happened so far.  Whatever happens
    is recorded in a log, which the theorems are about. */
module EventLoop {
  import opened Grid

  datatype Slot = Slot(active: bool, poll: bool, id: nat, due: nat, period: nat, hasCallback: bool)

  const EMPTY_SLOT := Slot(false, false, 0, 0, 0, false)

  datatype Event =
    | Issued(handle: int, due: nat, period: nat, poll: bool)
    | Refused
    | Cancelled(handle: int)
    | Called(handle: int, at: nat)

  datatype Op =
    | Elapse(us: nat)
    | AddTimer(delay: nat, period: nat, hasCallback: bool)
    | AddPoll(hasCallback: bool)
    | Cancel(handle: int)

  /** The operations performed by the callback whose call ends the given log. */
  type World = seq<Event> -> seq<Op>

  datatype Loop = Loop(slots: seq<Slot>, nextId: nat, clock: nat, log: seq<Event>)

  // ---------------------------------------------------------------- operations on values

  /** Index of the first free slot, or the number of slots. */
  function FirstFree(slots: seq<Slot>, from: nat := 0): (i: nat)
    requires from <= |slots|
    ensures from <= i <= |slots|
    ensures forall k :: from <= k < i ==> slots[k].active
    ensures i < |slots| ==> !slots[i].active
    decreases |slots| - from
  {
    if from == |slots| || !slots[from].active then from else FirstFree(slots, from + 1)
  }

  /** Index of the first active slot with the given handle, or the number of slots. */
  function Find(slots: seq<Slot>, handle: int, from: nat := 0): (i: nat)
    requires from <= |slots|
    ensures from <= i <= |slots|
    ensures forall k :: from <= k < i ==> !(slots[k].active && slots[k].id == handle)
    ensures i < |slots| ==> slots[i].active && slots[i].id == handle
    decreases |slots| - from
  {
    if from == |slots| || (slots[from].active && slots[from].id == handle) then from else Find(slots, handle, from + 1)
  }

  /** Puts an entry into the first free slot. */
  function Added(l: Loop, entry: Slot): Loop {
    var i := FirstFree(l.slots);
    if i == |l.slots| then l.(log := l.log + [Refused])
    else
      l.(slots := l.slots[i := entry.(id := l.nextId)],
         nextId := l.nextId + 1,
         log := l.log + [Issued(l.nextId, entry.due, entry.period, entry.poll)])
  }

  function TimerAdded(l: Loop, delay: nat, period: nat, hasCallback: bool): Loop {
    Added(l, Slot(true, false, 0, l.clock + delay, period, hasCallback))
  }

  /** A poll keeps the stale due time and period of the slot it is given. */
  function PollAdded(l: Loop, hasCallback: bool): Loop {
    var i := FirstFree(l.slots);
    var stale := if i < |l.slots| then l.slots[i] else EMPTY_SLOT;
    Added(l, Slot(true, true, 0, stale.due, stale.period, hasCallback))
  }

  function Freed(s: Slot): Slot {
    s.(active := false, hasCallback := false)
  }

  function WithoutHandle(l: Loop, handle: int): Loop {
    var i := Find(l.slots, handle);
    l.(slots := if handle <= 0 || i == |l.slots| then l.slots else l.slots[i := Freed(l.slots[i])],
       log := l.log + [Cancelled(handle)])
  }

  function Done(l: Loop, op: Op): Loop {
    match op
    case Elapse(us) => l.(clock := l.clock + us)
    case AddTimer(delay, period, hasCallback) => TimerAdded(l, delay, period, hasCallback)
    case AddPoll(hasCallback) => PollAdded(l, hasCallback)
    case Cancel(handle) => WithoutHandle(l, handle)
  }

  function AllDone(l: Loop, ops: seq<Op>): Loop
    decreases ops
  {
    if |ops| == 0 then l else AllDone(Done(l, ops[0]), ops[1..])
  }

  predicate Runnable(s: Slot, now: nat) {
    s.active && s.hasCallback && (s.poll || now >= s.due)
  }

  /** The slot as it is left just before its callback is called. */
  function Rearmed(s: Slot, now: nat): Slot {
    if s.poll then s
    else if s.period == 0 then Freed(s)
    else s.(due := Advance(s.due, s.period, now))
  }

  /** The slot table just before the callback in slot `i` runs. */
  function Fired(l: Loop, i: nat, now: nat): Loop
    requires i < |l.slots|
  {
    l.(slots := l.slots[i := Rearmed(l.slots[i], now)], log := l.log + [Called(l.slots[i].id, now)])
  }

  /** The rest of a pass, from slot `i` on. */
  function PassFrom(l: Loop, i: nat, n: nat, now: nat, world: World): Loop
    requires |l.slots| == n && i <= n
    decreases n - i
  {
    if i == n then l
    else if !Runnable(l.slots[i], now) then PassFrom(l, i + 1, n, now, world)
    else
      var l1 := Fired(l, i, now);
      SameSlotCount(l1, world(l1.log));
      PassFrom(AllDone(l1, world(l1.log)), i + 1, n, now, world)
  }

  function Pass(l: Loop, world: World): Loop {
    PassFrom(l, 0, |l.slots|, l.clock, world)
  }

  lemma SameSlotCount(l: Loop, ops: seq<Op>)
    ensures |AllDone(l, ops).slots| == |l.slots|
    decreases ops
  {
    if |ops| > 0 {
      SameSlotCount(Done(l, ops[0]), ops[1..]);
    }
  }

  // ---------------------------------------------------------------- the scheduler object

  class Scheduler {
    const slots: array<Slot>
    var nextId: nat
    var clock: nat
    var log: seq<Event>

    ghost function View(): Loop
      reads this, slots
    {
      Loop(slots[..], nextId, clock, log)
    }

    constructor (maxCallbacks: nat)
      ensures fresh(slots)
      ensures View() == Loop(seq(maxCallbacks, i => EMPTY_SLOT), 1, 0, [])
    {
      slots := new Slot[maxCallbacks](i => EMPTY_SLOT);
      nextId, clock, log := 1, 0, [];
      new;
      assert slots[..] == seq(maxCallbacks, i => EMPTY_SLOT);
    }

    method CancelHandle(handle: int)
      modifies this, slots
      ensures View() == WithoutHandle(old(View()), handle)
    {
      ghost var before := slots[..];
      log := log + [Cancelled(handle)];
      if handle <= 0 {
        return;
      }
      for i := 0 to slots.Length
        invariant slots[..] == before && nextId == old(nextId) && clock == old(clock)
        invariant log == old(log) + [Cancelled(handle)]
        invariant Find(before, handle) == Find(before, handle, i)
      {
        if slots[i].active && slots[i].id == handle {
          slots[i] := slots[i].(active := false, hasCallback := false);
          assert slots[..] == before[i := Freed(before[i])];
          return;
        }
      }
    }

    method Add(entry: Slot) returns (handle: nat)
      modifies this, slots
      ensures View() == Added(old(View()), entry)
      ensures handle == (if FirstFree(old(slots[..])) == slots.Length then 0 else old(nextId))
    {
      ghost var before := slots[..];
      for i := 0 to slots.Length
        invariant slots[..] == before && nextId == old(nextId) && clock == old(clock) && log == old(log)
        invariant FirstFree(before) == FirstFree(before, i)
      {
        if !slots[i].active {
          slots[i] := entry.(id := nextId);
          assert slots[..] == before[i := entry.(id := old(nextId))];
          log := log + [Issued(nextId, entry.due, entry.period, entry.poll)];
          handle := nextId;
          nextId := nextId + 1;
          return;
        }
      }
      log := log + [Refused];
      return 0;
    }

    /** Returns 0 exactly when every slot is taken. */
    method AddTimerEntry(delay: nat, period: nat, hasCallback: bool) returns (handle: nat)
      requires nextId > 0
      modifies this, slots
      ensures View() == TimerAdded(old(View()), delay, period, hasCallback)
      ensures handle == 0 <==> forall i :: 0 <= i < slots.Length ==> old(slots[..])[i].active
    {
      handle := Add(Slot(true, false, 0, clock + delay, period, hasCallback));
    }

    method AddPollEntry(hasCallback: bool) returns (handle: nat)
      requires nextId > 0
      modifies this, slots
      ensures View() == PollAdded(old(View()), hasCallback)
      ensures handle == 0 <==> forall i :: 0 <= i < slots.Length ==> old(slots[..])[i].active
    {
      var i := FirstFree(slots[..]);
      var stale := if i < slots.Length then slots[i] else EMPTY_SLOT;
      handle := Add(Slot(true, true, 0, stale.due, stale.period, hasCallback));
    }

    /** Runs the script of one callback. */
    method RunScript(ops: seq<Op>)
      requires nextId > 0
      modifies this, slots
      ensures View() == AllDone(old(View()), ops) && nextId > 0
    {
      for k := 0 to |ops|
        invariant nextId > 0
        invariant AllDone(View(), ops[k..]) == AllDone(old(View()), ops)
      {
        assert ops[k..][1..] == ops[k + 1..];
        match ops[k]
        case Elapse(us) => clock := clock + us;
        case AddTimer(delay, period, hasCallback) => var _ := AddTimerEntry(delay, period, hasCallback);
        case AddPoll(hasCallback) => var _ := AddPollEntry(hasCallback);
        case Cancel(handle) => CancelHandle(handle);
      }
    }

    method RunOnce(world: World)
      requires nextId > 0
      modifies this, slots
      ensures View() == Pass(old(View()), world) && nextId > 0
    {
      var now := clock;
      for i := 0 to slots.Length
        invariant nextId > 0
        invariant PassFrom(View(), i, slots.Length, now, world) == Pass(old(View()), world)
      {
        var slot := slots[i];
        if slot.active && slot.hasCallback && (slot.poll || now >= slot.due) {
          ghost var before := View();
          if slot.period == 0 && !slot.poll {
            slots[i] := slot.(active := false, hasCallback := false);
          } else if !slot.poll {
            var due := ComputeAdvance(slot.due, slot.period, now);
            slots[i] := slot.(due := due);
          }
          log := log + [Called(slot.id, now)];
          assert View().slots == before.slots[i := Rearmed(before.slots[i], now)];
          ghost var fired := Fired(before, i, now);
          assert View() == fired;
          SameSlotCount(fired, world(fired.log));
          RunScript(world(log));
        }
      }
    }
  }
}
