/** Runs of a client that talks to a server over connections that come and go, with requests that
    may be refused because the queue is full: what the server watches at any moment, and when that
    is what the client wants. */
module AgreementRuns {
  import opened Agreement
  import opened Client
  import opened ClientText
  import opened Fields
  import opened PendingQueue
  import opened Requests
  import opened Server
  import opened Text
  import opened Values
  import opened WatchTable
  import opened Wrappers

  /** The requests of an application and the events of its connection, which accepts every
      write while it is up. */
  datatype Act = Watch(field: Field, period: real) | Unwatch(field: Field) | Assign(name: string, json: string) | Connect | Close

  function Acted(c: ClientState, a: Act): ClientState {
    match a
    case Watch(f, period) => Watched(c, Name(f), period)
    case Unwatch(f) => Unwatched(c, Name(f))
    case Assign(name, json) => Assigned(c, name, json)
    case Connect => Connected(c, [])
    case Close => Closed(c)
  }

  function ActedAll(acts: seq<Act>): ClientState {
    if |acts| == 0 then Created() else Acted(ActedAll(acts[..|acts| - 1]), acts[|acts| - 1])
  }

  /** A short line is accepted now: there is a connection or a free slot. */
  predicate Accepting(c: ClientState) {
    c.link.up || FreeLine(c.pending) < |c.pending|
  }

  /** Assignments are not watch requests in disguise. */
  predicate Honest(a: Act) {
    a.Assign? ==> RequestName(RecordText(a.name, a.json)) != "watch"
  }

  predicate AllHonest(acts: seq<Act>) {
    forall i :: 0 <= i < |acts| ==> Honest(acts[i])
  }

  /** What the requests accepted so far ask the server to watch: the last accepted word on each
      field counts, and a connection repeats every watch of the client. */
  function Standing(acts: seq<Act>): map<Field, real> {
    if |acts| == 0 then map[]
    else
      var front := acts[..|acts| - 1];
      var c, before := ActedAll(front), Standing(front);
      match acts[|acts| - 1]
      case Watch(f, period) => if Accepting(c) then before[f := Asked(period)] else before
      case Unwatch(f) => if Accepting(c) then before - {f} else before
      case Assign(_, _) => before
      case Connect => before + Wanted(c.watches)
      case Close => before
  }

  // ---------------------------------------------------------------- what the server watches

  /** The server's periods when it has handled all lines written and pending. */
  ghost function Served(r: Registry, c: ClientState, clock: nat -> nat): map<Field, real>
    requires SoundTable(r)
  {
    Periods(Serve(r, AllLines(c), clock))
  }

  /** A request is one more line at the end, or refused without effect. */
  lemma RequestInOrder(c: ClientState, text: string)
    requires QueueSound(c) && LineFits(text, MAX_LINE_SIZE)
    ensures var c' := Request(c, text);
            && QueueSound(c') && c'.watches == c.watches && c'.link.up == c.link.up
            && AllLines(c') == if Accepting(c) then AllLines(c) + [text] else AllLines(c)
  {
    hide QueueSound, AllLines, QueueOrWrite;
    OfferInOrder(c, text);
  }

  lemma SameQueue(c: ClientState, c1: ClientState)
    requires c1.pending == c.pending && c1.link == c.link
    ensures QueueSound(c1) == QueueSound(c) && AllLines(c1) == AllLines(c) && Accepting(c1) == Accepting(c)
  {}

  lemma WatchServed(c: ClientState, r: Registry, clock: nat -> nat, f: Field, period: real)
    requires SoundTable(r) && QueueSound(c) && ClientSound(c.watches)
    ensures var c' := Watched(c, Name(f), period);
            && QueueSound(c') && c'.link.up == c.link.up
            && ClientSound(c'.watches) && Wanted(c'.watches) == Wanted(c.watches)[f := Asked(period)]
            && Served(r, c', clock) == if Accepting(c) then Served(r, c, clock)[f := Asked(period)] else Served(r, c, clock)
  {
    hide Name, Serve, Periods, Wanted, AllLines, ClientSound, QueueSound, Remembered, WatchLine, Accepting, Asked;
    var c1 := c.(watches := Remembered(c.watches, Name(f), period));
    RememberedWanted(c.watches, f, period);
    SameQueue(c, c1);
    WatchLineLength(f, period);
    RequestInOrder(c1, WatchLine(Name(f), period));
    ServeWatch(r, AllLines(c), f, period, clock);
  }

  lemma UnwatchServed(c: ClientState, r: Registry, clock: nat -> nat, f: Field)
    requires SoundTable(r) && QueueSound(c) && ClientSound(c.watches)
    ensures var c' := Unwatched(c, Name(f));
            && QueueSound(c') && c'.link.up == c.link.up
            && ClientSound(c'.watches) && Wanted(c'.watches) == Wanted(c.watches) - {f}
            && Served(r, c', clock) == if Accepting(c) then Served(r, c, clock) - {f} else Served(r, c, clock)
  {
    hide Name, Serve, Periods, Wanted, AllLines, ClientSound, QueueSound, Forgotten, WatchText, Accepting;
    var c1 := c.(watches := Forgotten(c.watches, Name(f)));
    ForgottenWanted(c.watches, f);
    SameQueue(c, c1);
    WatchLineLength(f, 0.0);
    RequestInOrder(c1, WatchText(Name(f), "false"));
    ServeUnwatch(r, AllLines(c), f, clock);
  }

  lemma AssignServed(c: ClientState, r: Registry, clock: nat -> nat, name: string, json: string)
    requires SoundTable(r) && QueueSound(c) && Honest(Assign(name, json))
    ensures var c' := Assigned(c, name, json);
            && QueueSound(c') && c'.watches == c.watches && c'.link.up == c.link.up
            && Served(r, c', clock) == Served(r, c, clock)
  {
    hide Serve, Periods, AllLines, QueueSound, RecordText, RequestName, Accepting;
    if LineFits(RecordText(name, json), MAX_LINE_SIZE) {
      RequestInOrder(c, RecordText(name, json));
      ServeOther(r, AllLines(c), RecordText(name, json), clock);
    }
  }

  lemma ConnectServed(c: ClientState, r: Registry, clock: nat -> nat)
    requires SoundTable(r) && QueueSound(c) && ClientSound(c.watches)
    ensures var c' := Connected(c, []);
            && QueueSound(c') && c'.watches == c.watches && c'.link.up
            && Served(r, c', clock) == Served(r, c, clock) + Wanted(c.watches)
  {
    hide Serve, Periods, Wanted, ClientSound;
    ConnectMerges(c, r, clock);
    var c' := Connected(c, []);
    NoTexts(c'.pending, 0);
    assert c'.link.sent + [] == c'.link.sent;
  }

  lemma CloseServed(c: ClientState, r: Registry, clock: nat -> nat)
    requires SoundTable(r) && QueueSound(c)
    ensures var c' := Closed(c);
            QueueSound(c') && c'.watches == c.watches && !c'.link.up && Served(r, c', clock) == Served(r, c, clock)
  {
    hide Serve, Periods;
    CloseInOrder(c);
  }

  /** What a run keeps: the queue is in order, the client's table is sound, and the server's
      periods, now or as soon as it has handled what is pending, are those standing. */
  ghost predicate Follows(c: ClientState, r: Registry, clock: nat -> nat, standing: map<Field, real>)
    requires SoundTable(r)
  {
    QueueSound(c) && ClientSound(c.watches) && Served(r, c, clock) == standing
  }

  lemma ActFollows(acts: seq<Act>, r: Registry, clock: nat -> nat)
    requires |acts| > 0 && SoundTable(r) && Honest(acts[|acts| - 1])
    requires var front := acts[..|acts| - 1]; Follows(ActedAll(front), r, clock, Standing(front))
    ensures Follows(ActedAll(acts), r, clock, Standing(acts))
  {
    hide Watched, Unwatched, Assigned, Connected, QueueSound, ClientSound, Served, Wanted, Accepting, Honest, Asked, Name;
    var c := ActedAll(acts[..|acts| - 1]);
    match acts[|acts| - 1]
    case Watch(f, period) => WatchServed(c, r, clock, f, period);
    case Unwatch(f) => UnwatchServed(c, r, clock, f);
    case Assign(name, json) => AssignServed(c, r, clock, name, json);
    case Connect => ConnectServed(c, r, clock);
    case Close => CloseServed(c, r, clock);
  }

  /** Over every run, refused requests included: the server watches exactly what the accepted
      requests and the replays ask for. */
  lemma {:induction false} RunFollows(acts: seq<Act>, r: Registry, clock: nat -> nat)
    requires SoundTable(r) && Periods(r) == map[] && AllHonest(acts)
    ensures Follows(ActedAll(acts), r, clock, Standing(acts))
    decreases |acts|
  {
    hide Follows, Honest, Periods;
    if |acts| == 0 {
      CreatedFollows(r, clock);
    } else {
      RunFollows(acts[..|acts| - 1], r, clock);
      ActFollows(acts, r, clock);
    }
  }

  lemma CreatedSound()
    ensures ClientSound(Created().watches) && Wanted(Created().watches) == map[]
  {}

  lemma CreatedFollows(r: Registry, clock: nat -> nat)
    requires SoundTable(r) && Periods(r) == map[]
    ensures Follows(Created(), r, clock, map[])
  {
    hide Periods, Wanted, ClientSound, AllLines, QueueSound;
    CreatedSound();
    CreatedInOrder();
    assert Serve(r, [], clock) == r;
  }

  // ---------------------------------------------------------------- when the tables differ

  /** The last accepted word on a field was a watch or a replay. */
  predicate Stands(acts: seq<Act>, f: Field) {
    if |acts| == 0 then false
    else
      var front := acts[..|acts| - 1];
      var c := ActedAll(front);
      match acts[|acts| - 1]
      case Watch(g, _) => if g == f && Accepting(c) then true else Stands(front, f)
      case Unwatch(g) => if g == f && Accepting(c) then false else Stands(front, f)
      case Connect => f in Wanted(c.watches) || Stands(front, f)
      case _ => Stands(front, f)
  }

  lemma {:induction false} StandingKeys(acts: seq<Act>, f: Field)
    ensures f in Standing(acts) <==> Stands(acts, f)
    decreases |acts|
  {
    hide ActedAll, Accepting, Wanted, Asked;
    if |acts| > 0 {
      StandingKeys(acts[..|acts| - 1], f);
    }
  }

  /** An unwatch of a field was refused while the server's last word on it was a watch, and since
      then the field has been neither watched again nor unwatched with success. */
  predicate Stale(acts: seq<Act>, f: Field) {
    if |acts| == 0 then false
    else
      var front := acts[..|acts| - 1];
      match acts[|acts| - 1]
      case Watch(g, _) => g != f && Stale(front, f)
      case Unwatch(g) => if g == f then !Accepting(ActedAll(front)) && Stands(front, f) else Stale(front, f)
      case _ => Stale(front, f)
  }

  ghost predicate NoneStale(acts: seq<Act>) {
    forall f :: !Stale(acts, f)
  }

  /** What one more act does to the client's own table. */
  lemma ActWanted(c: ClientState, a: Act, r: Registry, clock: nat -> nat)
    requires SoundTable(r) && QueueSound(c) && ClientSound(c.watches)
    ensures var c' := Acted(c, a);
            && c'.link.up == (if a.Connect? then true else if a.Close? then false else c.link.up)
            && Wanted(c'.watches) ==
               match a
               case Watch(f, period) => Wanted(c.watches)[f := Asked(period)]
               case Unwatch(f) => Wanted(c.watches) - {f}
               case _ => Wanted(c.watches)
  {
    hide Watched, Unwatched, Connected, QueueSound, ClientSound, Served, Wanted, Asked, Name, Request, RecordText;
    match a
    case Watch(f, period) => WatchServed(c, r, clock, f, period);
    case Unwatch(f) => UnwatchServed(c, r, clock, f);
    case Assign(name, json) => AssignKeepsTable(c, name, json);
    case Connect => ConnectServed(c, r, clock);
    case Close => CloseServed(c, r, clock);
  }

  lemma AssignKeepsTable(c: ClientState, name: string, json: string)
    ensures Assigned(c, name, json).watches == c.watches && Assigned(c, name, json).link.up == c.link.up
  {
    hide RecordText;
  }

  lemma ReachedSound(acts: seq<Act>, r: Registry, clock: nat -> nat)
    requires SoundTable(r) && Periods(r) == map[] && AllHonest(acts)
    ensures QueueSound(ActedAll(acts)) && ClientSound(ActedAll(acts).watches)
  {
    hide QueueSound, ClientSound, Served, AllHonest, Periods;
    RunFollows(acts, r, clock);
  }

  /** The server watches a field that the client does not want exactly when a refused unwatch of
      it has not been made good. */
  lemma {:induction false} StaleIff(acts: seq<Act>, f: Field, r: Registry, clock: nat -> nat)
    requires SoundTable(r) && Periods(r) == map[] && AllHonest(acts)
    ensures Stale(acts, f) <==> f in Standing(acts) && f !in Wanted(ActedAll(acts).watches)
    decreases |acts|
  {
    hide Acted, Accepting, Wanted, Asked, Honest, Periods, QueueSound, ClientSound, Stands;
    if |acts| > 0 {
      var front := acts[..|acts| - 1];
      StaleIff(front, f, r, clock);
      StandingKeys(front, f);
      ReachedSound(front, r, clock);
      ActWanted(ActedAll(front), acts[|acts| - 1], r, clock);
    }
  }

  /** While the connection is up, every watch that the client wants is in force. */
  ghost predicate InForce(acts: seq<Act>) {
    var c := ActedAll(acts);
    c.link.up ==> forall f :: f in Wanted(c.watches) ==> f in Standing(acts) && Standing(acts)[f] == Wanted(c.watches)[f]
  }

  lemma {:induction false} WantedInForce(acts: seq<Act>, r: Registry, clock: nat -> nat)
    requires SoundTable(r) && Periods(r) == map[] && AllHonest(acts)
    ensures InForce(acts)
    decreases |acts|
  {
    hide Acted, Wanted, Asked, Honest, Periods, QueueSound, ClientSound;
    if |acts| > 0 {
      var front := acts[..|acts| - 1];
      WantedInForce(front, r, clock);
      ReachedSound(front, r, clock);
      ActWanted(ActedAll(front), acts[|acts| - 1], r, clock);
    }
  }

  /** Whenever the connection is up, the two tables are equal exactly when no field is stale. */
  lemma ConnectedTablesEqual(acts: seq<Act>, r: Registry, clock: nat -> nat)
    requires SoundTable(r) && Periods(r) == map[] && AllHonest(acts)
    ensures var c := ActedAll(acts);
            c.link.up ==> (Periods(Serve(r, c.link.sent, clock)) == Wanted(c.watches) <==> NoneStale(acts))
  {
    hide Serve, Periods, Wanted, ClientSound, ActedAll, Stale, AllHonest, Standing;
    var c := ActedAll(acts);
    if c.link.up {
      RunFollows(acts, r, clock);
      NoTexts(c.pending, 0);
      assert AllLines(c) == c.link.sent;
      WantedInForce(acts, r, clock);
      var standing, wanted := Standing(acts), Wanted(c.watches);
      if standing == wanted {
        forall f ensures !Stale(acts, f) {
          StaleIff(acts, f, r, clock);
        }
      } else {
        var f := OneMore(standing, wanted);
        StaleIff(acts, f, r, clock);
      }
    }
  }

  lemma OneMore(standing: map<Field, real>, wanted: map<Field, real>) returns (f: Field)
    requires forall f :: f in wanted ==> f in standing && standing[f] == wanted[f]
    requires standing != wanted
    ensures f in standing && f !in wanted
  {
    f :| f in standing && f !in wanted;
  }

  /** Connecting at any moment makes the two tables equal exactly when no unwatch of a field that
      the server watches has been refused without a later watch or accepted unwatch of it. */
  lemma ConnectEqualIff(acts: seq<Act>, r: Registry, clock: nat -> nat)
    requires SoundTable(r) && Periods(r) == map[] && AllHonest(acts)
    ensures var c := Connected(ActedAll(acts), []);
            Periods(Serve(r, c.link.sent, clock)) == Wanted(c.watches) <==> NoneStale(acts)
  {
    hide Serve, Periods, Wanted, QueueSound, ClientSound, Connected, NoneStale, ActedAll;
    var after := acts + [Connect];
    ReachedSound(acts, r, clock);
    ConnectServed(ActedAll(acts), r, clock);
    ActedSnoc(acts, Connect);
    HonestSnoc(acts, Connect);
    ConnectedTablesEqual(after, r, clock);
    NoneStaleConnect(acts);
  }

  lemma ActedSnoc(acts: seq<Act>, a: Act)
    ensures ActedAll(acts + [a]) == Acted(ActedAll(acts), a)
  {
    hide Acted;
    assert (acts + [a])[..|acts|] == acts;
  }

  lemma HonestSnoc(acts: seq<Act>, a: Act)
    requires AllHonest(acts) && Honest(a)
    ensures AllHonest(acts + [a])
  {
    hide Honest;
  }

  lemma NoneStaleConnect(acts: seq<Act>)
    ensures NoneStale(acts + [Connect]) == NoneStale(acts)
  {
    assert (acts + [Connect])[..|acts|] == acts;
    assert forall f :: Stale(acts + [Connect], f) == Stale(acts, f);
  }

  /** Every watch and unwatch was accepted when it was made. */
  predicate AllAccepted(acts: seq<Act>) {
    |acts| > 0 ==>
      var front, a := acts[..|acts| - 1], acts[|acts| - 1];
      AllAccepted(front) && (a.Watch? || a.Unwatch? ==> Accepting(ActedAll(front)))
  }

  /** As long as no watch or unwatch is refused, the lines written and pending, handled in order,
      give the server exactly the client's watches, connected or not. */
  lemma {:induction false} RunAgrees(acts: seq<Act>, r: Registry, clock: nat -> nat)
    requires SoundTable(r) && Periods(r) == map[] && AllHonest(acts)
    ensures AllAccepted(acts) ==> Served(r, ActedAll(acts), clock) == Wanted(ActedAll(acts).watches)
    decreases |acts|
  {
    hide Acted, Accepting, Wanted, Asked, Honest, Served, Periods, QueueSound, ClientSound;
    RunFollows(acts, r, clock);
    if |acts| == 0 {
      CreatedSound();
    } else if AllAccepted(acts) {
      var front := acts[..|acts| - 1];
      RunAgrees(front, r, clock);
      RunFollows(front, r, clock);
      ActWanted(ActedAll(front), acts[|acts| - 1], r, clock);
    }
  }

  // ---------------------------------------------------------------- an unwatch that gets lost

  /** Unwatching a field and then connecting leaves the server watching it exactly when the
      unwatch was refused and the server would be watching it before. */
  lemma RefusedUnwatchStays(c: ClientState, f: Field, r: Registry, clock: nat -> nat)
    requires SoundTable(r) && QueueSound(c) && ClientSound(c.watches)
    ensures var c' := Connected(Unwatched(c, Name(f)), []);
            && f !in Wanted(c'.watches)
            && (f in Served(r, c', clock) <==> !Accepting(c) && f in Served(r, c, clock))
  {
    hide Name, Served, Wanted, QueueSound, ClientSound, Unwatched, Connected, Accepting;
    UnwatchServed(c, r, clock, f);
    ConnectServed(Unwatched(c, Name(f)), r, clock);
  }

  /** One watch and assignments up to `k` requests, all before there is a connection. */
  function Filling(k: nat): seq<Act> {
    if k == 0 then [] else if k == 1 then [Act.Watch(ApMode, 0.0)] else Filling(k - 1) + [Assign(Name(ApPilot), "\"basic\"")]
  }

  ghost predicate Filled(c: ClientState, k: nat) {
    && !c.link.up && |c.pending| == MAX_PENDING_LINES && k <= MAX_PENDING_LINES
    && forall i :: 0 <= i < |c.pending| ==> (c.pending[i].active <==> i < k)
  }

  lemma FilledAccepts(c: ClientState, k: nat)
    requires Filled(c, k)
    ensures Accepting(c) <==> k < MAX_PENDING_LINES
  {
    if k < MAX_PENDING_LINES {
      assert !c.pending[k].active;
    }
  }

  lemma RequestFills(c: ClientState, text: string, k: nat)
    requires Filled(c, k) && k < MAX_PENDING_LINES && LineFits(text, MAX_LINE_SIZE)
    ensures Filled(Request(c, text), k + 1)
  {
    assert !c.pending[k].active;
    assert FreeLine(c.pending) < |c.pending| && !c.pending[FreeLine(c.pending)].active;
  }

  lemma PilotAssignment()
    ensures RequestName(RecordText(Name(ApPilot), "\"basic\"")) != "watch"
    ensures LineFits(RecordText(Name(ApPilot), "\"basic\""), MAX_LINE_SIZE)
  {
    hide Name, Trim;
    NameChars(ApPilot);
    NotSpecialName(ApPilot);
    SplitLine(Name(ApPilot), "\"basic\"");
  }

  lemma CreatedFilled()
    ensures Filled(Created(), 0)
  {}

  lemma {:induction false} FillingFills(k: nat)
    requires 1 <= k <= MAX_PENDING_LINES
    ensures |Filling(k)| == k && AllHonest(Filling(k)) && Filled(ActedAll(Filling(k)), k) && Stands(Filling(k), ApMode)
    decreases k
  {
    hide Name, Filled, Acted, Honest, ActedAll, Stands;
    if k == 1 {
      FillingFirst();
    } else {
      var front, a := Filling(k - 1), Assign(Name(ApPilot), "\"basic\"");
      FillingFills(k - 1);
      AssignFills(ActedAll(front), k - 1);
      ActedSnoc(front, a);
      HonestSnoc(front, a);
      StandsAssign(front, a, ApMode);
    }
  }

  lemma StandsAssign(acts: seq<Act>, a: Act, f: Field)
    requires a.Assign?
    ensures Stands(acts + [a], f) == Stands(acts, f)
  {
    hide Name;
    assert (acts + [a])[..|acts|] == acts;
  }

  lemma FillingFirst()
    ensures |Filling(1)| == 1 && AllHonest(Filling(1)) && Filled(ActedAll(Filling(1)), 1) && Stands(Filling(1), ApMode)
  {
    hide Name, Filled, Accepting, Acted;
    var acts := [Act.Watch(ApMode, 0.0)];
    assert Filling(1) == acts && acts[..0] == [];
    CreatedFilled();
    WatchFills(Created());
  }

  lemma WatchFills(c: ClientState)
    requires Filled(c, 0)
    ensures Accepting(c) && Filled(Acted(c, Act.Watch(ApMode, 0.0)), 1)
  {
    hide Name, WatchLine, Request, Remembered, Filled, Accepting;
    FilledAccepts(c, 0);
    WatchLineLength(ApMode, 0.0);
    var c1 := c.(watches := Remembered(c.watches, Name(ApMode), 0.0));
    SameFilled(c, c1, 0);
    RequestFills(c1, WatchLine(Name(ApMode), 0.0), 0);
  }

  lemma AssignFills(c: ClientState, k: nat)
    requires Filled(c, k) && k < MAX_PENDING_LINES
    ensures Honest(Assign(Name(ApPilot), "\"basic\"")) && Filled(Acted(c, Assign(Name(ApPilot), "\"basic\"")), k + 1)
  {
    hide Name, RecordText, RequestName, Request, Filled;
    PilotAssignment();
    RequestFills(c, RecordText(Name(ApPilot), "\"basic\""), k);
  }

  lemma SameFilled(c: ClientState, c1: ClientState, k: nat)
    requires Filled(c, k) && c1.pending == c.pending && c1.link == c.link
    ensures Filled(c1, k)
  {}

  /** A concrete run: watch one field and assign fifteen times while offline, unwatch the field,
      connect.  The server goes on watching it. */
  lemma TablesCanDiffer(r: Registry, clock: nat -> nat)
    requires SoundTable(r) && Periods(r) == map[]
    ensures var acts := Filling(MAX_PENDING_LINES) + [Unwatch(ApMode)];
            var c := Connected(ActedAll(acts), []);
            AllHonest(acts) && Stale(acts, ApMode) && Periods(Serve(r, c.link.sent, clock)) != Wanted(c.watches)
  {
    hide Name, Serve, Periods, Wanted, Filling, ActedAll, Connected, Accepting, Filled, Stands;
    var acts := Filling(MAX_PENDING_LINES) + [Unwatch(ApMode)];
    assert acts[..|acts| - 1] == Filling(MAX_PENDING_LINES);
    FillingFills(MAX_PENDING_LINES);
    FilledAccepts(ActedAll(Filling(MAX_PENDING_LINES)), MAX_PENDING_LINES);
    assert Stale(acts, ApMode);
    ConnectEqualIff(acts, r, clock);
  }
}
