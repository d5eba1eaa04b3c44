/** From the client's request to its copy: a watch line as the client prints it, changes on the
    server, and a poll. */
module Subscription {
  import opened Chunks
  import opened Client
  import opened ClientText
  import opened DataModel
  import opened Fields
  import opened LineReader
  import opened Mirror
  import opened Receiver
  import opened RegistryRuns
  import opened Replication
  import opened ReplicationRuns
  import opened Requests
  import opened Server
  import opened Text
  import opened Values
  import opened WatchRequest
  import opened WatchTable
  import opened Wrappers

  /** A client's watch line asks for nothing but its own field. */
  lemma WatchLineAsks(f: Field, json: string)
    requires ',' !in json && Trimmed(json)
    ensures AskedIn(WatchText(Name(f), json)) == {f}
  {
    hide Name, Trim, Next, Find, Print;
    var item := Item("", Name(f), "", "", json, "");
    NameChars(f);
    FindName(f);
    OneEntry(Name(f), json);
    var e := "{" + Print([item], None) + "}";
    SplitLine("watch", e);
    assert WatchText(Name(f), json) == "watch" + "=" + e + "\n";
    TrimNothing(e);
    assert e[1..|e| - 1] == Print([item], None);
    OneNamed(item);
  }

  lemma OneNamed(item: Item)
    requires Good(item)
    ensures NamedIn(Print([item], None)) == FieldSet(Find(item.key))
  {
    hide Next, Find, Print;
    assert GoodLayout([item], None) by {
      hide Good;
    }
    NextReads([item], None);
    var t := Next(Print([item], None));
    NextTrimmed(t.rest, "");
    NextNothing();
    assert NamedIn(t.rest) == {};
  }

  /** Right after its watch of all changes, a field is the only one watched. */
  lemma FirstWatch(r: Registry, f: Field, now: nat)
    requires SoundTable(r) && WatchMap(r.watches) == map[]
    ensures var r' := WatchField(r, f, 0.0, now).0;
            && WatchField(r, f, 0.0, now).1
            && r'.model == r.model && r'.dirty == r.dirty
            && Immediate(r'.watches, f) && WatchedFields(r'.watches) == {f}
  {
    hide WatchMap, Immediate, Distinct, SlotFor;
    WatchRefines(r, f, 0.0, now);
    var i, ws' := SlotFor(r.watches, f), WatchField(r, f, 0.0, now).0.watches;
    assert ws'[i] == NewWatch(f, 0.0, now);
    ImmediateIff(ws', f, 0);
    forall g: Field ensures g in WatchedFields(ws') <==> g == f {
      NotInMap(ws', g);
    }
  }

  lemma RescheduledStays(ws: seq<Watch>, now: nat, f: Field)
    requires Immediate(ws, f)
    ensures Immediate(AllRescheduled(ws, now), f)
  {
    hide Immediate;
    var ws' := AllRescheduled(ws, now);
    ImmediateIff(ws, f, 0);
    ImmediateIff(ws', f, 0);
    var k :| 0 <= k < |ws| && ws[k].active && ws[k].field == f && ws[k].period == 0.0;
    assert ws'[k] == ws[k];
  }

  lemma JustPoll(r: Registry, now: nat, f: Field)
    requires |r.dirty| == FIELD_COUNT && Immediate(r.watches, f) && WatchedFields(r.watches) == {f}
    ensures var end := RunAll(r, [PollAt(now)]).reg;
            end.model == r.model && Immediate(end.watches, f) && (Tidy(end.model, f) ==> TidyRun(r, [PollAt(now)]))
  {
    hide Immediate, WatchedFields, Tidy, Polled, PollNotes;
    PolledIs(r, now);
    PollText(r, now);
    RescheduledStays(r.watches, now, f);
    assert [PollAt(now)][1..] == [];
  }

  /** Changes and a poll, with one field watched. */
  lemma {:induction false} ChangesThenPoll(r: Registry, changes: seq<Step>, now: nat, f: Field)
    requires |r.dirty| == FIELD_COUNT && forall s :: s in changes ==> s.Change?
    requires Immediate(r.watches, f) && WatchedFields(r.watches) == {f}
    ensures var end := RunAll(r, changes + [PollAt(now)]).reg;
            && end.model == RunAll(r, changes).reg.model && Immediate(end.watches, f)
            && (Tidy(end.model, f) ==> TidyRun(r, changes + [PollAt(now)]))
    decreases |changes|
  {
    hide Immediate, WatchedFields, Tidy, Put, Polled, PollNotes;
    if |changes| == 0 {
      assert changes + [PollAt(now)] == [PollAt(now)];
      JustPoll(r, now, f);
    } else {
      hide TidyNote;
      assert changes[0] in changes;
      assert (changes + [PollAt(now)])[1..] == changes[1..] + [PollAt(now)];
      ChangesThenPoll(Apply(r, changes[0]).reg, changes[1..], now, f);
    }
  }

  /** A client sends its watch of a field to a new server; fields change, the server polls, and
      the client reads the bytes in any chunks.  Its copy of the field is the mirror image of
      the last value. */
  lemma SubscriberFollows(m: Model, f: Field, t1: nat, changes: seq<Step>, t2: nat, copy: Registry, chunks: seq<string>)
    requires |copy.dirty| == FIELD_COUNT && forall s :: s in changes ==> s.Change?
    ensures var steps := [Request(WatchLine(Name(f), 0.0), t1)] + changes;
            var end := RunAll(Started(m), steps + [PollAt(t2)]);
            Tidy(Started(m).model, f) && Tidy(end.reg.model, f) && Flatten(chunks) == end.out ==>
              Get(ReceiveAll(Subscriber(FRESH, copy), chunks).copy.model, f) == CopyOf(RunAll(Started(m), steps).reg.model, f)
  {
    hide Started, HandleLine, WatchField, Get, CopyOf, Tidy, Name, WatchMap, Receive, ReceiveAll, Distinct, AskedIn, Immediate, WatchedFields, TidyRun, RunAll, TidyNote, LineNotes;
    var r, first := Started(m), Request(WatchLine(Name(f), 0.0), t1);
    var steps := [first] + changes;
    StartSound(m);
    FirstWatch(r, f, t1);
    WatchLineSets(r, f, 0.0, t1);
    WatchLineAsks(f, "true");
    assert WatchLine(Name(f), 0.0) == WatchText(Name(f), "true");
    var r1 := WatchField(r, f, 0.0, t1).0;
    ChangesThenPoll(r1, changes, t2, f);
    RunFirst(r, first, changes);
    RunFirst(r, first, changes + [PollAt(t2)]);
    assert steps + [PollAt(t2)] == [first] + (changes + [PollAt(t2)]);
    var end := RunAll(r, steps + [PollAt(t2)]);
    if Tidy(r.model, f) && Tidy(end.reg.model, f) && Flatten(chunks) == end.out {
      RequestTidy(r, WatchLine(Name(f), 0.0), t1, f);
      TidyFirst(r, first, changes + [PollAt(t2)]);
      CopiesAgree(m, steps, t2, copy, chunks, f);
    }
  }

  /** A request that asks for nothing but a tidy field writes nothing but tidy notes. */
  lemma RequestTidy(r: Registry, line: string, now: nat, f: Field)
    requires |r.dirty| == FIELD_COUNT && AskedIn(line) == {f} && HandleLine(r, line, now).reg.model == r.model
    requires Tidy(r.model, f)
    ensures forall n :: n in LineNotes(r, line, now) ==> TidyNote(r.model, n)
  {
    hide HandleLine, LineNotes, AskedIn, Tidy, Covered, NotesText;
    HandleLineExplained(r, line, now);
  }

  lemma RunFirst(r: Registry, s: Step, rest: seq<Step>)
    requires |r.dirty| == FIELD_COUNT
    ensures |Apply(r, s).reg.dirty| == FIELD_COUNT
    ensures RunAll(r, [s] + rest).reg == RunAll(Apply(r, s).reg, rest).reg
  {
    hide Apply;
    ApplyKeepsSize(r, s);
    assert ([s] + rest)[1..] == rest;
  }

  lemma TidyFirst(r: Registry, s: Step, rest: seq<Step>)
    requires |r.dirty| == FIELD_COUNT && |Apply(r, s).reg.dirty| == FIELD_COUNT
    requires forall n :: n in StepNotes(r, s) ==> TidyNote(Apply(r, s).reg.model, n)
    requires TidyRun(Apply(r, s).reg, rest)
    ensures TidyRun(r, [s] + rest)
  {
    hide Apply, TidyNote, StepNotes;
    assert ([s] + rest)[1..] == rest;
  }
}
