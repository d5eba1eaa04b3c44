/** The watch table over every run: it refines a plain map, periodic lines stay on their grid,
    and requests never change a field that is not writable. */
module RegistryRuns {
  import opened DataModel
  import opened Fields
  import opened Grid
  import opened Mirror
  import opened Replication
  import opened ReplicationRuns
  import opened Search
  import opened Server
  import opened Text
  import opened Values
  import opened WatchTable
  import opened Wrappers

  type Plans = map<Field, Plan>

  // ---------------------------------------------------------------- the map that requests act on

  function Unplanned(m: Plans, f: Option<Field>): Plans {
    if f.Some? then m - {f.value} else m
  }

  /** One entry of a watch request, and whether it ends the request. */
  function PlanEntry(m: Plans, key: string, value: string, now: nat): (Plans, bool) {
    if key == "values" then (m, false)
    else if value == "false" then (Unplanned(m, Find(key)), false)
    else match (ParsePeriod(value), Find(key))
      case (Some(period), Some(f)) => (m[f := Plan(period, now + PeriodUs(period))], false)
      case _ => (m, true)
  }

  function PlanAll(m: Plans, expression: string, now: nat): Plans
    decreases |expression|
  {
    match Next(expression)
    case Entry(key, value, rest) =>
      var (m', stop) := PlanEntry(m, key, value, now);
      if stop then m' else PlanAll(m', rest, now)
    case _ => m
  }

  function PlanRequest(m: Plans, line: string, now: nat): Plans {
    var l := Trim(line);
    var eq := IndexOf(l, '=');
    if |l| == 0 || eq == |l| || Trim(l[..eq]) != "watch" then m
    else
      var e := Trim(Trim(l[eq + 1..]));
      if Braced(e) then PlanAll(m, e[1..|e| - 1], now) else m
  }

  function PlanStep(m: Plans, s: Step): Plans {
    match s
    case Request(line, now) => PlanRequest(m, line, now)
    case Change(_, _) => m
    case PollAt(now) => map f | f in m :: Replanned(m[f], now)
  }

  function PlanRun(m: Plans, steps: seq<Step>): Plans
    decreases |steps|
  {
    if |steps| == 0 then m else PlanRun(PlanStep(m, steps[0]), steps[1..])
  }

  // ---------------------------------------------------------------- refinement

  /** One entry: a watch of a known name never finds the table full. */
  lemma EntryRefines(r: Registry, key: string, value: string, now: nat)
    requires SoundTable(r)
    ensures var (reply, stop) := Perform(r, key, value, now);
            SoundTable(reply.reg) && (WatchMap(reply.reg.watches), stop) == PlanEntry(WatchMap(r.watches), key, value, now)
  {
    hide WatchMap, ParsePeriod, Find, WatchField, Distinct, LineOf, ErrorLine, ValuesLine, PeriodUs;
    match Find(key)
    case None =>
    case Some(f) =>
      UnwatchRefines(r.watches, f);
      match ParsePeriod(value)
      case None =>
      case Some(period) => WatchRefines(r, f, period, now);
  }

  lemma {:induction false} RequestRefines(r: Registry, expression: string, now: nat)
    requires SoundTable(r)
    ensures var reg := PerformAll(r, expression, now).reg;
            SoundTable(reg) && WatchMap(reg.watches) == PlanAll(WatchMap(r.watches), expression, now)
    decreases |expression|
  {
    hide WatchMap, SoundTable, Perform, PlanEntry, Next, ErrorLine;
    if Next(expression).Entry? {
      var token := Next(expression);
      EntryRefines(r, token.key, token.value, now);
      var (reply, stop) := Perform(r, token.key, token.value, now);
      if !stop {
        RequestRefines(reply.reg, token.rest, now);
      }
    }
  }

  lemma AssignmentKeepsWatches(r: Registry, name: string, value: string)
    requires |r.dirty| == FIELD_COUNT
    ensures var reg := HandleAssignment(r, name, value).reg; reg.watches == r.watches && |reg.dirty| == FIELD_COUNT
  {}

  lemma LineRefines(r: Registry, line: string, now: nat)
    requires SoundTable(r)
    ensures var reg := HandleLine(r, line, now).reg;
            SoundTable(reg) && WatchMap(reg.watches) == PlanRequest(WatchMap(r.watches), line, now)
  {
    hide WatchMap, Distinct, PerformAll, PlanAll, HandleAssignment, ErrorLine, Trim;
    var l := Trim(line);
    var eq := IndexOf(l, '=');
    if 0 < |l| && eq < |l| {
      var name, value := Trim(l[..eq]), Trim(l[eq + 1..]);
      var e := Trim(value);
      AssignmentKeepsWatches(r, name, value);
      if Braced(e) {
        RequestRefines(r, e[1..|e| - 1], now);
      }
    }
  }

  lemma StepRefines(r: Registry, s: Step)
    requires SoundTable(r)
    ensures var reg := Apply(r, s).reg; SoundTable(reg) && WatchMap(reg.watches) == PlanStep(WatchMap(r.watches), s)
  {
    hide WatchMap, Distinct, HandleLine, PlanRequest, Put, ChangedText, DueText, AllRescheduled, Replanned;
    match s
    case Request(line, now) => LineRefines(r, line, now);
    case Change(f, v) =>
    case PollAt(now) => PollRefines(r.watches, now);
  }

  /** The 64-slot table refines the map over every run of requests, changes and polls. */
  lemma {:induction false} RunRefines(r: Registry, steps: seq<Step>)
    requires SoundTable(r)
    ensures var end := RunAll(r, steps).reg;
            SoundTable(end) && WatchMap(end.watches) == PlanRun(WatchMap(r.watches), steps)
    decreases |steps|
  {
    hide WatchMap, Apply, PlanStep, Distinct;
    if |steps| > 0 {
      StepRefines(r, steps[0]);
      RunRefines(Apply(r, steps[0]).reg, steps[1..]);
    }
  }

  lemma StartSound(m: Model)
    ensures SoundTable(Started(m)) && WatchMap(Started(m).watches) == map[]
  {}

  // ---------------------------------------------------------------- periodic lines

  /** The steps leave the watch of `f` alone, and the times of their polls do not decrease from
      `last` on. */
  predicate Quiet(steps: seq<Step>, f: Field, last: nat) {
    |steps| > 0 ==>
      match steps[0]
      case Request(line, _) => f !in AskedIn(line) && Quiet(steps[1..], f, last)
      case Change(_, _) => Quiet(steps[1..], f, last)
      case PollAt(now) => now >= last && Quiet(steps[1..], f, now)
  }

  function LastPoll(steps: seq<Step>, last: nat): nat {
    if |steps| == 0 then last
    else LastPoll(steps[1..], if steps[0].PollAt? then steps[0].now else last)
  }

  lemma {:induction false} PlanAllLeaves(m: Plans, expression: string, now: nat, f: Field)
    requires f !in NamedIn(expression) && f in m
    ensures f in PlanAll(m, expression, now) && PlanAll(m, expression, now)[f] == m[f]
    decreases |expression|
  {
    hide Next, Find, ParsePeriod, PeriodUs;
    if Next(expression).Entry? {
      var token := Next(expression);
      var (m', stop) := PlanEntry(m, token.key, token.value, now);
      assert f in m' && m'[f] == m[f];
      if !stop {
        PlanAllLeaves(m', token.rest, now, f);
      }
    }
  }

  lemma PlanRequestLeaves(m: Plans, line: string, now: nat, f: Field)
    requires f !in AskedIn(line) && f in m
    ensures f in PlanRequest(m, line, now) && PlanRequest(m, line, now)[f] == m[f]
  {
    hide PlanAll, NamedIn, Trim;
    var l := Trim(line);
    var eq := IndexOf(l, '=');
    if 0 < |l| && eq < |l| && Trim(l[..eq]) == "watch" {
      var e := Trim(Trim(l[eq + 1..]));
      if Braced(e) {
        PlanAllLeaves(m, e[1..|e| - 1], now, f);
      }
    }
  }

  /** A poll moves a due time on the grid to the first grid point after the poll. */
  lemma ReplannedOnGrid(period: real, t0: nat, last: nat, now: nat)
    requires PeriodUs(period) > 0 && t0 <= last <= now
    ensures var P := PeriodUs(period);
            Replanned(Plan(period, NextPoint(t0, P, last)), now) == Plan(period, NextPoint(t0, P, now))
    ensures PlanDue(Plan(period, NextPoint(t0, PeriodUs(period), last)), now) <==>
            Elapsed(t0, PeriodUs(period), now) > Elapsed(t0, PeriodUs(period), last)
  {
    hide Advance, Elapsed;
    var P := PeriodUs(period);
    var k := Elapsed(t0, P, last);
    DueIffElapsed(t0, P, last, now);
    if now >= NextPoint(t0, P, last) {
      AdvanceToGrid(t0, P, k + 1, now);
    } else {
      ElapsedMonotonic(t0, P, last, now);
    }
  }

  lemma {:induction false} PlanStaysOnGrid(m: Plans, f: Field, period: real, t0: nat, last: nat, steps: seq<Step>)
    requires PeriodUs(period) > 0 && t0 <= last && Quiet(steps, f, last)
    requires f in m && m[f] == Plan(period, NextPoint(t0, PeriodUs(period), last))
    ensures LastPoll(steps, last) >= last && f in PlanRun(m, steps)
    ensures PlanRun(m, steps)[f] == Plan(period, NextPoint(t0, PeriodUs(period), LastPoll(steps, last)))
    decreases |steps|
  {
    hide PlanRequest, AskedIn, NextPoint, Replanned, PeriodUs;
    if |steps| > 0 {
      var next := if steps[0].PollAt? then steps[0].now else last;
      if steps[0].Request? {
        PlanRequestLeaves(m, steps[0].line, steps[0].now, f);
      } else if steps[0].PollAt? {
        ReplannedOnGrid(period, t0, last, next);
      }
      PlanStaysOnGrid(PlanStep(m, steps[0]), f, period, t0, next, steps[1..]);
    }
  }

  /** A period in seconds, as whole microseconds. */
  lemma WholeMicroseconds(seconds: real, P: nat)
    requires seconds > 0.0 && P as real <= seconds * 1000000.0 < (P + 1) as real
    ensures PeriodUs(seconds) == P
  {}

  /** A watch with a positive period, set at time t, is due a whole number of microseconds after
      t: as many as fit the period.  A period that is not positive makes it due at once. */
  lemma WatchDue(r: Registry, f: Field, seconds: real, t: nat)
    requires SoundTable(r)
    ensures var plans := WatchMap(WatchField(r, f, seconds, t).0.watches);
            && f in plans && plans[f].period == seconds
            && var due := plans[f].due;
               if seconds > 0.0 then t as real + seconds * 1000000.0 - 1.0 < due as real <= t as real + seconds * 1000000.0
               else due == t
  {
    hide WatchMap, WatchField;
    WatchRefines(r, f, seconds, t);
  }

  /** Periodic lines do not drift.  A watch set at t0 with a period of P whole microseconds is
      written by a poll exactly when the number of whole periods since t0 has grown since the poll
      before, whatever the run in between, and its due time is always the first grid point after
      the last poll. */
  lemma PeriodicLines(r: Registry, f: Field, seconds: real, P: nat, t0: nat, steps: seq<Step>, now: nat)
    requires SoundTable(r) && P > 0 && P as real <= seconds * 1000000.0 < (P + 1) as real
    requires Quiet(steps, f, t0) && now >= LastPoll(steps, t0)
    ensures var r1 := WatchField(r, f, seconds, t0).0;
            |r1.dirty| == FIELD_COUNT &&
            var last, r2 := LastPoll(steps, t0), RunAll(r1, steps).reg;
            && last >= t0
            && (f in DueFields(r2.watches, now, 0) <==> Elapsed(t0, P, now) > Elapsed(t0, P, last))
            && f in WatchMap(r2.watches) && WatchMap(r2.watches)[f] == Plan(seconds, NextPoint(t0, P, last))
  {
    hide WatchMap, Distinct, WatchField, PeriodUs, RunAll, PlanRun, Quiet, DueFields, PlanDue, DueText, FieldLines, Elapsed;
    WholeMicroseconds(seconds, P);
    WatchRefines(r, f, seconds, t0);
    var r1 := WatchField(r, f, seconds, t0).0;
    RunRefines(r1, steps);
    var last, r2 := LastPoll(steps, t0), RunAll(r1, steps).reg;
    FirstPoint(t0, P);
    PlanStaysOnGrid(WatchMap(r1.watches), f, seconds, t0, t0, steps);
    PollPrints(r2.model, r2.watches, now, f);
    ReplannedOnGrid(seconds, t0, last, now);
  }

  lemma FirstPoint(t0: nat, period: nat)
    requires period > 0
    ensures NextPoint(t0, period, t0) == t0 + period
  {}

  lemma {:induction false} PlanStaysPut(m: Plans, f: Field, plan: Plan, last: nat, steps: seq<Step>)
    requires PeriodUs(plan.period) == 0 && Quiet(steps, f, last) && f in m && m[f] == plan
    ensures f in PlanRun(m, steps) && PlanRun(m, steps)[f] == plan && LastPoll(steps, last) >= last
    decreases |steps|
  {
    hide PlanRequest, AskedIn, PeriodUs, Advance;
    if |steps| > 0 {
      if steps[0].Request? {
        PlanRequestLeaves(m, steps[0].line, steps[0].now, f);
      }
      PlanStaysPut(PlanStep(m, steps[0]), f, plan, if steps[0].PollAt? then steps[0].now else last, steps[1..]);
    }
  }

  /** A positive period below one microsecond has no grid: every poll writes the line. */
  lemma TinyPeriodLines(r: Registry, f: Field, period: real, t0: nat, steps: seq<Step>, now: nat)
    requires SoundTable(r) && 0.0 < period * 1000000.0 < 1.0
    requires Quiet(steps, f, t0) && now >= LastPoll(steps, t0)
    ensures var r1 := WatchField(r, f, period, t0).0;
            |r1.dirty| == FIELD_COUNT && f in DueFields(RunAll(r1, steps).reg.watches, now, 0)
  {
    hide WatchMap, Distinct, WatchField, PeriodUs, RunAll, PlanRun, Quiet, DueFields, DueText, FieldLines;
    WholeMicroseconds(period, 0);
    WatchRefines(r, f, period, t0);
    var r1 := WatchField(r, f, period, t0).0;
    RunRefines(r1, steps);
    var r2 := RunAll(r1, steps).reg;
    PlanStaysPut(WatchMap(r1.watches), f, Plan(period, t0), t0, steps);
    PollPrints(r2.model, r2.watches, now, f);
  }

  // ---------------------------------------------------------------- what a poll writes

  /** Watched for all changes means: in the map, with period zero. */
  lemma ImmediateInMap(ws: seq<Watch>, f: Field)
    requires Distinct(ws)
    ensures Immediate(ws, f) <==> f in WatchMap(ws) && WatchMap(ws)[f].period == 0.0
  {
    hide WatchMap, Distinct, Immediate;
    ImmediateIff(ws, f, 0);
    NotInMap(ws, f);
    var i := FindWatch(ws, f);
    if i < |ws| {
      PlanAt(ws, f, i);
    }
    if k :| 0 <= k < |ws| && ws[k].active && ws[k].field == f && ws[k].period == 0.0 {
      PlanAt(ws, f, k);
    }
  }

  lemma {:induction false} ChangedNotesIff(r: Registry, i: nat, f: Field)
    requires |r.dirty| == FIELD_COUNT && i <= FIELD_COUNT
    ensures ValueNote(f) in ChangedNotes(r, i) <==> i <= Index(f) && r.dirty[Index(f)] && Immediate(r.watches, f)
    decreases FIELD_COUNT - i
  {
    hide Immediate, Index, FieldAt;
    if i < FIELD_COUNT {
      ChangedNotesIff(r, i + 1, f);
      IndexOfFieldAt(i);
      assert FieldAt(Index(f)) == f;
    }
  }

  lemma IndexOfFieldAt(i: nat)
    requires i < FIELD_COUNT
    ensures Index(FieldAt(i)) == i
  {}

  lemma {:induction false} DueNotesIff(ws: seq<Watch>, now: nat, i: nat, f: Field)
    requires i <= |ws|
    ensures ValueNote(f) in DueNotes(ws, now, i) <==> f in DueFields(ws, now, i)
    decreases |ws| - i
  {
    if i < |ws| {
      hide DueNow, DueNotes, DueFields;
      DueNotesIff(ws, now, i + 1, f);
      DueNotesStep(ws, now, i);
      DueFieldsStep(ws, now, i);
      NoteAhead(f, ws[i].field, DueNotes(ws, now, i + 1));
      FieldAhead(f, ws[i].field, DueFields(ws, now, i + 1));
    }
  }

  lemma NoteAhead(f: Field, g: Field, rest: seq<Note>)
    ensures ValueNote(f) in [ValueNote(g)] + rest <==> f == g || ValueNote(f) in rest
  {}

  lemma FieldAhead(f: Field, g: Field, rest: seq<Field>)
    ensures f in [g] + rest <==> f == g || f in rest
  {}

  /** What a poll writes: first every changed field that is watched with period zero, and then
      every field that is watched with a positive period and due.  A field watched with a negative
      period is written by no poll. */
  lemma PollWrites(r: Registry, now: nat, f: Field)
    requires SoundTable(r)
    ensures var plans := WatchMap(r.watches);
            && Polled(r, now).out == NotesText(r.model, ChangedNotes(r, 0) + DueNotes(r.watches, now, 0))
            && (ValueNote(f) in ChangedNotes(r, 0) <==> f in plans && plans[f].period == 0.0 && r.dirty[Index(f)])
            && (ValueNote(f) in DueNotes(r.watches, now, 0) <==> f in plans && plans[f].period > 0.0 && now >= plans[f].due)
  {
    hide WatchMap, Immediate, ChangedNotes, DueNotes, DueFields, Polled, NotesText, DueText, FieldLines, Index, Distinct;
    PollText(r, now);
    ChangedNotesIff(r, 0, f);
    ImmediateInMap(r.watches, f);
    DueNotesIff(r.watches, now, 0, f);
    PollPrints(r.model, r.watches, now, f);
  }

  // ---------------------------------------------------------------- read-only fields

  ghost predicate WritesOne(m: Model, m': Model) {
    m' == m || exists f, v :: Writable(f) && Put(m, f, v) == Some(m')
  }

  lemma AssignmentWrites(r: Registry, name: string, value: string)
    requires |r.dirty| == FIELD_COUNT
    ensures WritesOne(r.model, HandleAssignment(r, name, value).reg.model)
  {}

  lemma WatchKeepsModel(r: Registry, value: string, now: nat)
    requires |r.dirty| == FIELD_COUNT
    ensures HandleWatch(r, value, now).reg.model == r.model
  {
    hide PerformAll, ErrorLine, Trim, Braced;
    var e := Trim(value);
    if Braced(e) {
      InsideBraces(e);
      PerformAllExplained(r, e[1..|e| - 1], now);
    }
  }

  lemma InsideBraces(e: string)
    requires Braced(e)
    ensures |e| >= 2
  {}

  lemma SameWrites(m: Model)
    ensures WritesOne(m, m)
  {}

  /** A request line leaves the state alone or stores one value in a writable field. */
  lemma RequestWrites(r: Registry, line: string, now: nat)
    requires |r.dirty| == FIELD_COUNT
    ensures WritesOne(r.model, HandleLine(r, line, now).reg.model)
  {
    hide HandleAssignment, HandleWatch, ErrorLine, Trim, WritesOne;
    var l := Trim(line);
    var eq := IndexOf(l, '=');
    SameWrites(r.model);
    if 0 < |l| && eq < |l| {
      var name, value := Trim(l[..eq]), Trim(l[eq + 1..]);
      hide IndexOf;
      AssignmentWrites(r, name, value);
      WatchKeepsModel(r, value, now);
    }
  }

  lemma StepReadOnly(r: Registry, s: Step, g: Field)
    requires |r.dirty| == FIELD_COUNT && !Writable(g) && !s.Change?
    ensures Get(Apply(r, s).reg.model, g) == Get(r.model, g)
  {
    hide Get, Put, HandleLine, Writable, Polled;
    match s
    case Request(line, now) =>
      var m' := HandleLine(r, line, now).reg.model;
      RequestWrites(r, line, now);
      if m' != r.model {
        var f, v :| Writable(f) && Put(r.model, f, v) == Some(m');
        PutGet(r.model, f, v, g);
      }
    case PollAt(now) => PolledIs(r, now);
  }

  /** No run of request lines and polls changes a field that is not writable. */
  lemma {:induction false} ReadOnlyStays(r: Registry, steps: seq<Step>, g: Field)
    requires |r.dirty| == FIELD_COUNT && !Writable(g) && forall s :: s in steps ==> !s.Change?
    ensures Get(RunAll(r, steps).reg.model, g) == Get(r.model, g)
    decreases |steps|
  {
    hide Get, Apply, Writable;
    if |steps| > 0 {
      ApplyKeepsSize(r, steps[0]);
      StepReadOnly(r, steps[0], g);
      ReadOnlyStays(Apply(r, steps[0]).reg, steps[1..], g);
    }
  }
}
