/** No accepted line is lost or duplicated, and without pops and refused writes they leave in
    the order in which they were accepted. */
module PendingQueue {
  import opened Client
  import opened ClientText
  import opened Wrappers

  /** The pending lines in slot order, from slot `i` on. */
  function Texts(ps: seq<PendingLine>, i: nat := 0): seq<string>
    requires i <= |ps|
    decreases |ps| - i
  {
    if i == |ps| then [] else (if ps[i].active then [ps[i].text] else []) + Texts(ps, i + 1)
  }

  /** The same lines without their order. */
  function BagFrom(ps: seq<PendingLine>, i: nat): multiset<string>
    requires i <= |ps|
    decreases |ps| - i
  {
    if i == |ps| then multiset{}
    else if ps[i].active then multiset{ps[i].text} + BagFrom(ps, i + 1)
    else BagFrom(ps, i + 1)
  }

  function Bag(ps: seq<PendingLine>): multiset<string> {
    BagFrom(ps, 0)
  }

  // ---------------------------------------------------------------- one slot

  lemma {:induction false} TextsSame(ps: seq<PendingLine>, ps': seq<PendingLine>, i: nat)
    requires |ps| == |ps'| && i <= |ps| && ps[i..] == ps'[i..]
    ensures Texts(ps, i) == Texts(ps', i)
    decreases |ps| - i
  {
    if i < |ps| {
      assert ps[i] == ps[i..][0] && ps'[i] == ps'[i..][0];
      assert ps[i + 1..] == ps[i..][1..] && ps'[i + 1..] == ps'[i..][1..];
      TextsSame(ps, ps', i + 1);
    }
  }

  lemma {:induction false} BagSame(ps: seq<PendingLine>, ps': seq<PendingLine>, i: nat)
    requires |ps| == |ps'| && i <= |ps| && forall k :: i <= k < |ps| ==> ps[k] == ps'[k]
    ensures BagFrom(ps, i) == BagFrom(ps', i)
    decreases |ps| - i
  {
    if i < |ps| {
      BagSame(ps, ps', i + 1);
    }
  }

  /** Filling a free slot adds one line. */
  lemma {:induction false} BagFill(ps: seq<PendingLine>, k: nat, line: string, i: nat)
    requires i <= k < |ps| && !ps[k].active
    ensures BagFrom(ps[k := PendingLine(true, line)], i) == BagFrom(ps, i) + multiset{line}
    decreases |ps| - i
  {
    if i < k {
      BagFill(ps, k, line, i + 1);
    } else {
      BagSame(ps, ps[k := PendingLine(true, line)], k + 1);
    }
  }

  /** Emptying a used slot removes its line. */
  lemma {:induction false} BagClear(ps: seq<PendingLine>, k: nat, i: nat)
    requires i <= k < |ps| && ps[k].active
    ensures BagFrom(ps, i) == BagFrom(ps[k := EMPTY_LINE], i) + multiset{ps[k].text}
    decreases |ps| - i
  {
    if i < k {
      BagClear(ps, k, i + 1);
    } else {
      BagSame(ps, ps[k := EMPTY_LINE], k + 1);
    }
  }

  // ---------------------------------------------------------------- conservation

  /** A line is refused exactly when it is too long or every slot is taken. */
  lemma RefusedIff(c: ClientState, line: string)
    ensures !QueueLine(c, line).1 <==>
            |line| >= 192 || forall i :: 0 <= i < |c.pending| ==> c.pending[i].active
  {}

  lemma SendBag(l: Link, line: string)
    ensures var (l', ok) := Send(l, line);
            multiset(l'.sent) == multiset(l.sent) + (if ok then multiset{line} else multiset{})
  {}

  lemma QueueLineConserves(c: ClientState, line: string)
    ensures var (c', ok) := QueueLine(c, line);
            c'.link == c.link && Bag(c'.pending) == Bag(c.pending) + (if ok then multiset{line} else multiset{})
  {
    hide BagFrom;
    var i := FreeLine(c.pending);
    if i < |c.pending| {
      BagFill(c.pending, i, line, 0);
    }
  }

  lemma QueueConserves(c: ClientState, line: string)
    ensures var (c', ok) := QueueOrWrite(c, line);
            multiset(c'.link.sent) + Bag(c'.pending) ==
            multiset(c.link.sent) + Bag(c.pending) + (if ok then multiset{line} else multiset{})
  {
    hide Bag, QueueLine, Send;
    var (link, ok) := Send(c.link, line);
    SendBag(c.link, line);
    QueueLineConserves(c, line);
    QueueLineConserves(c.(link := link), line);
  }

  lemma {:induction false} FlushConserves(c: ClientState, i: nat)
    requires i <= |c.pending|
    ensures var c' := FlushFrom(c, i);
            multiset(c'.link.sent) + Bag(c'.pending) == multiset(c.link.sent) + Bag(c.pending)
    decreases |c.pending| - i
  {
    if i < |c.pending| {
      if !c.pending[i].active {
        FlushConserves(c, i + 1);
      } else {
        var (link, ok) := Send(c.link, c.pending[i].text);
        SendBag(c.link, c.pending[i].text);
        BagClear(c.pending, i, 0);
        FlushConserves(ClientState(c.watches, if ok then c.pending[i := EMPTY_LINE] else c.pending, link), i + 1);
      }
    }
  }

  lemma PopConserves(c: ClientState)
    ensures var (c', line) := PopOutgoing(c);
            c'.link == c.link && Bag(c.pending) == Bag(c'.pending) + (match line case Some(t) => multiset{t} case None => multiset{})
  {
    hide BagFrom;
    var i := FirstPending(c.pending);
    if i < |c.pending| {
      BagClear(c.pending, i, 0);
    }
  }

  /** Everything that touches the queue: a request, a flush, a pop, a change of connection. */
  datatype Event = Offer(line: string) | Flush | Pop | Reconnect(up: bool, accepts: seq<bool>)

  datatype Account = Account(client: ClientState, accepted: multiset<string>, popped: multiset<string>)

  function Happen(a: Account, e: Event): Account {
    match e
    case Offer(line) =>
      var (c, ok) := QueueOrWrite(a.client, line);
      Account(c, if ok then a.accepted + multiset{line} else a.accepted, a.popped)
    case Flush => a.(client := FlushPending(a.client))
    case Pop =>
      var (c, line) := PopOutgoing(a.client);
      Account(c, a.accepted, match line case Some(t) => a.popped + multiset{t} case None => a.popped)
    case Reconnect(up, accepts) =>
      a.(client := a.client.(link := a.client.link.(up := up, accepts := accepts)))
  }

  function Run(a: Account, es: seq<Event>): Account
    decreases es
  {
    if |es| == 0 then a else Run(Happen(a, es[0]), es[1..])
  }

  /** Lines written or still pending. */
  function Kept(c: ClientState): multiset<string> {
    multiset(c.link.sent) + Bag(c.pending)
  }

  /** Written, popped and pending lines together are the accepted ones. */
  ghost predicate Balanced(a: Account) {
    a.accepted == Kept(a.client) + a.popped
  }

  lemma HappenBalanced(a: Account, e: Event)
    requires Balanced(a)
    ensures Balanced(Happen(a, e))
  {
    hide Bag, QueueOrWrite, PopOutgoing, FlushFrom;
    match e
    case Offer(line) => QueueConserves(a.client, line);
    case Flush => FlushConserves(a.client, 0);
    case Pop => PopConserves(a.client);
    case Reconnect(_, _) =>
  }

  /** Conservation over every run, whichever writes the connection accepts. */
  lemma {:induction false} RunBalanced(a: Account, es: seq<Event>)
    requires Balanced(a)
    ensures Balanced(Run(a, es))
    decreases es
  {
    if |es| > 0 {
      HappenBalanced(a, es[0]);
      RunBalanced(Happen(a, es[0]), es[1..]);
    }
  }

  // ---------------------------------------------------------------- order

  /** The used slots come first. */
  predicate Compact(ps: seq<PendingLine>) {
    forall i, j :: 0 <= i < j < |ps| && ps[j].active ==> ps[i].active
  }

  lemma {:induction false} NoTexts(ps: seq<PendingLine>, i: nat)
    requires i <= |ps| && forall k :: i <= k < |ps| ==> !ps[k].active
    ensures Texts(ps, i) == []
    decreases |ps| - i
  {
    if i < |ps| {
      NoTexts(ps, i + 1);
    }
  }

  lemma {:induction false} FillLast(ps: seq<PendingLine>, k: nat, line: string, i: nat)
    requires i <= k < |ps|
    requires forall j :: k <= j < |ps| ==> !ps[j].active
    ensures Texts(ps[k := PendingLine(true, line)], i) == Texts(ps, i) + [line]
    decreases |ps| - i
  {
    var ps' := ps[k := PendingLine(true, line)];
    if i < k {
      FillLast(ps, k, line, i + 1);
    } else {
      NoTexts(ps, k);
      NoTexts(ps', k + 1);
    }
  }

  /** Queueing adds at the end. */
  lemma QueueInOrder(c: ClientState, line: string)
    requires Compact(c.pending) && QueueLine(c, line).1
    ensures var c' := QueueLine(c, line).0;
            Compact(c'.pending) && Texts(c'.pending) == Texts(c.pending) + [line]
            && c'.link == c.link && c'.watches == c.watches && |c'.pending| == |c.pending|
  {
    FillLast(c.pending, FreeLine(c.pending), line, 0);
  }

  lemma TextsActive(ps: seq<PendingLine>, i: nat)
    requires i < |ps| && ps[i].active
    ensures Texts(ps, i) == [ps[i].text] + Texts(ps, i + 1)
  {}

  // ---------------------------------------------------------------- refused writes

  /** The connection does not take the next line. */
  predicate Refuses(bits: seq<bool>) {
    |bits| > 0 && !bits[0]
  }

  function Later(bits: seq<bool>): seq<bool> {
    if |bits| > 0 then bits[1..] else []
  }

  /** The lines that are taken, or left, when each line is offered once. */
  function Taken(lines: seq<string>, bits: seq<bool>, taken: bool): seq<string> {
    if |lines| == 0 then []
    else (if Refuses(bits) != taken then [lines[0]] else []) + Taken(lines[1..], Later(bits), taken)
  }

  /** What is sent and what stays pending when the slots from `i` on are offered. */
  predicate Splits(c: ClientState, c': ClientState, i: nat)
    requires i <= |c.pending|
  {
    && c'.watches == c.watches && |c'.pending| == |c.pending|
    && c'.link.up == c.link.up && (c.link.accepts == [] ==> c'.link.accepts == [])
    && (forall k :: 0 <= k < i ==> c'.pending[k] == c.pending[k])
    && c'.link.sent == c.link.sent + Taken(Texts(c.pending, i), c.link.accepts, true)
    && Texts(c'.pending, i) == Taken(Texts(c.pending, i), c.link.accepts, false)
  }

  lemma SkipSplits(c: ClientState, c': ClientState, i: nat)
    requires i < |c.pending| && !c.pending[i].active && Splits(c, c', i + 1)
    ensures Splits(c, c', i)
  {
    hide Texts, Taken;
    TextsInactive(c.pending, i);
    TextsInactive(c'.pending, i);
  }

  lemma RefusedSplits(c: ClientState, next: ClientState, c': ClientState, i: nat)
    requires i < |c.pending| && c.pending[i].active && Refuses(c.link.accepts)
    requires next == ClientState(c.watches, c.pending, Link(c.link.up, Later(c.link.accepts), c.link.sent))
    requires Splits(next, c', i + 1)
    ensures Splits(c, c', i)
  {
    hide Texts, Taken;
    TextsActive(c.pending, i);
    TextsActive(c'.pending, i);
    TakenFirst(c.pending[i].text, Texts(c.pending, i + 1), c.link.accepts);
  }

  lemma SentSplits(c: ClientState, next: ClientState, c': ClientState, i: nat)
    requires i < |c.pending| && c.pending[i].active && !Refuses(c.link.accepts)
    requires next == ClientState(c.watches, c.pending[i := EMPTY_LINE],
                                 Link(c.link.up, Later(c.link.accepts), c.link.sent + [c.pending[i].text]))
    requires Splits(next, c', i + 1)
    ensures Splits(c, c', i)
  {
    hide Texts, Taken;
    var text, lines := c.pending[i].text, Texts(c.pending, i + 1);
    TextsSame(c.pending, next.pending, i + 1);
    TextsActive(c.pending, i);
    TextsInactive(c'.pending, i);
    TakenFirst(text, lines, c.link.accepts);
    Regroup(c.link.sent, [text], Taken(lines, Later(c.link.accepts), true));
  }

  lemma Regroup(a: seq<string>, b: seq<string>, c: seq<string>)
    ensures a + b + c == a + (b + c)
  {}

  lemma {:induction false} FlushSplits(c: ClientState, i: nat)
    requires i <= |c.pending|
    ensures Splits(c, FlushFrom(c, i), i)
    decreases |c.pending| - i
  {
    if i < |c.pending| {
      hide Splits;
      var p, c' := c.pending[i], FlushFrom(c, i);
      if !p.active {
        FlushSplits(c, i + 1);
        SkipSplits(c, c', i);
      } else {
        SendOffers(c.link, p.text);
        hide Send, Refuses, Later;
        var (link, ok) := Send(c.link, p.text);
        var next := ClientState(c.watches, if ok then c.pending[i := EMPTY_LINE] else c.pending, link);
        FlushSplits(next, i + 1);
        if ok {
          SentSplits(c, next, c', i);
        } else {
          RefusedSplits(c, next, c', i);
        }
      }
    } else {
      assert c.link.sent + [] == c.link.sent;
    }
  }

  lemma TextsInactive(ps: seq<PendingLine>, i: nat)
    requires i < |ps| && !ps[i].active
    ensures Texts(ps, i) == Texts(ps, i + 1)
  {}

  lemma SendOffers(l: Link, line: string)
    ensures Send(l, line) == (Link(l.up, Later(l.accepts), if Refuses(l.accepts) then l.sent else l.sent + [line]), !Refuses(l.accepts))
  {}

  lemma TakenFirst(line: string, lines: seq<string>, bits: seq<bool>)
    ensures Taken([line] + lines, bits, true) == if Refuses(bits) then Taken(lines, Later(bits), true) else [line] + Taken(lines, Later(bits), true)
    ensures Taken([line] + lines, bits, false) == if Refuses(bits) then [line] + Taken(lines, Later(bits), false) else Taken(lines, Later(bits), false)
  {
    assert ([line] + lines)[1..] == lines;
  }

  /** A flush offers every pending line once, in slot order, whatever happens to the others: those
      that are taken are sent, the rest stays pending. */
  lemma FlushOffersAll(c: ClientState)
    requires c.link.up
    ensures var c' := FlushPending(c);
            && c'.watches == c.watches
            && c'.link.sent == c.link.sent + Taken(Texts(c.pending), c.link.accepts, true)
            && Texts(c'.pending) == Taken(Texts(c.pending), c.link.accepts, false)
  {
    FlushSplits(c, 0);
  }

  /** A flush that is not refused sends the pending lines in slot order and empties the
      queue. */
  lemma FlushInOrder(c: ClientState, i: nat)
    requires i <= |c.pending| && c.link.accepts == []
    requires forall k :: 0 <= k < i ==> !c.pending[k].active
    ensures var c' := FlushFrom(c, i);
            && c'.link == c.link.(sent := c.link.sent + Texts(c.pending, i))
            && c'.watches == c.watches && |c'.pending| == |c.pending|
            && forall k :: 0 <= k < |c'.pending| ==> !c'.pending[k].active
  {
    hide Texts, Taken, FlushFrom;
    FlushSplits(c, i);
    AllTaken(Texts(c.pending, i));
    EmptyTexts(FlushFrom(c, i).pending, i);
  }

  lemma {:induction false} AllTaken(lines: seq<string>)
    ensures Taken(lines, [], true) == lines && Taken(lines, [], false) == []
    decreases |lines|
  {
    if |lines| > 0 {
      AllTaken(lines[1..]);
    }
  }

  lemma {:induction false} EmptyTexts(ps: seq<PendingLine>, i: nat)
    requires i <= |ps| && Texts(ps, i) == []
    ensures forall k :: i <= k < |ps| ==> !ps[k].active
    decreases |ps| - i
  {
    if i < |ps| {
      EmptyTexts(ps, i + 1);
    }
  }

  /** A request is written if the connection takes it and queued if not; it is lost exactly when
      the queue has no room for it either. */
  lemma LostIff(c: ClientState, line: string)
    ensures var (c', ok) := QueueOrWrite(c, line);
            && (ok <==> (c.link.up && !Refuses(c.link.accepts)) || (|line| < 192 && exists i :: 0 <= i < |c.pending| && !c.pending[i].active))
            && c'.link.sent == (if c.link.up && !Refuses(c.link.accepts) then c.link.sent + [line] else c.link.sent)
            && (c.link.up && !Refuses(c.link.accepts) ==> c'.pending == c.pending)
  {
    RefusedIff(c, line);
  }

  // ---------------------------------------------------------------- order over runs

  /** What can happen as long as no line is popped and no write refused. */
  datatype OrderedEvent = Offered(line: string) | Opened | Lost

  /** The client and the lines that it has accepted, in order. */
  datatype Queue = Queue(client: ClientState, accepted: seq<string>)

  function Proceed(q: Queue, e: OrderedEvent): Queue {
    match e
    case Offered(line) =>
      var (c, ok) := QueueOrWrite(q.client, line);
      Queue(c, if ok then q.accepted + [line] else q.accepted)
    case Opened => q.(client := FlushPending(q.client.(link := q.client.link.(up := true, accepts := []))))
    case Lost => q.(client := Closed(q.client))
  }

  function ProceedAll(q: Queue, es: seq<OrderedEvent>): Queue
    decreases |es|
  {
    if |es| == 0 then q else ProceedAll(Proceed(q, es[0]), es[1..])
  }

  /** The lines written so far, and then those still to be written. */
  function AllLines(c: ClientState): seq<string> {
    c.link.sent + Texts(c.pending)
  }

  /** The used slots come first, and nothing waits while there is a connection. */
  ghost predicate QueueSound(c: ClientState) {
    && |c.pending| == MAX_PENDING_LINES && Compact(c.pending) && c.link.accepts == []
    && (c.link.up ==> forall i :: 0 <= i < |c.pending| ==> !c.pending[i].active)
  }

  /** A line is taken at the end, or refused without effect. */
  lemma OfferInOrder(c: ClientState, line: string)
    requires QueueSound(c)
    ensures var (c', ok) := QueueOrWrite(c, line);
            && QueueSound(c') && c'.watches == c.watches && c'.link.up == c.link.up
            && AllLines(c') == (if ok then AllLines(c) + [line] else AllLines(c))
            && (ok <==> c.link.up || (|line| < MAX_LINE_SIZE && FreeLine(c.pending) < |c.pending|))
  {
    if c.link.up {
      NoTexts(c.pending, 0);
      assert c.link.sent + [line] + [] == c.link.sent + [] + [line];
    } else if QueueLine(c, line).1 {
      QueueInOrder(c, line);
      assert c.link.sent + (Texts(c.pending) + [line]) == c.link.sent + Texts(c.pending) + [line];
    }
  }

  lemma OpenInOrder(c: ClientState)
    requires QueueSound(c)
    ensures var c' := FlushPending(c.(link := c.link.(up := true, accepts := []))); QueueSound(c') && AllLines(c') == AllLines(c)
  {
    var c1 := c.(link := c.link.(up := true, accepts := []));
    FlushInOrder(c1, 0);
    var c' := FlushPending(c1);
    NoTexts(c'.pending, 0);
    assert c'.link.sent + [] == c'.link.sent;
  }

  /** Order over every run: what has been written, followed by what is pending, is the sequence of
      accepted lines. */
  lemma {:induction false} RunInOrder(q: Queue, es: seq<OrderedEvent>)
    requires QueueSound(q.client) && AllLines(q.client) == q.accepted
    ensures var q' := ProceedAll(q, es); QueueSound(q'.client) && AllLines(q'.client) == q'.accepted
    decreases |es|
  {
    hide QueueSound, AllLines, FlushPending, QueueOrWrite;
    if |es| > 0 {
      match es[0] {
        case Offered(line) => OfferInOrder(q.client, line);
        case Opened => OpenInOrder(q.client);
        case Lost => CloseInOrder(q.client);
      }
      RunInOrder(Proceed(q, es[0]), es[1..]);
    }
  }

  lemma CloseInOrder(c: ClientState)
    requires QueueSound(c)
    ensures QueueSound(Closed(c)) && AllLines(Closed(c)) == AllLines(c)
  {}

  lemma CreatedInOrder()
    ensures QueueSound(Created()) && AllLines(Created()) == []
  {
    NoTexts(Created().pending, 0);
  }

  /** A pop takes the first of the pending lines, and nothing if there is none. */
  lemma PopTakesFirst(c: ClientState)
    ensures var (c', line) := PopOutgoing(c);
            && c'.link == c.link && c'.watches == c.watches
            && (line.None? <==> Texts(c.pending) == [])
            && (line.Some? ==> Texts(c.pending) == [line.value] + Texts(c'.pending))
            && (line.None? ==> c' == c)
  {
    var i := FirstPending(c.pending);
    FirstText(c.pending, 0, i);
  }

  lemma {:induction false} FirstText(ps: seq<PendingLine>, from: nat, i: nat)
    requires from <= i <= |ps| && (forall k :: from <= k < i ==> !ps[k].active) && (i < |ps| ==> ps[i].active)
    ensures if i == |ps| then Texts(ps, from) == []
            else Texts(ps, from) == [ps[i].text] + Texts(ps[i := EMPTY_LINE], from)
    decreases i - from
  {
    if from < i {
      FirstText(ps, from + 1, i);
      assert Texts(ps, from) == Texts(ps, from + 1);
      if i < |ps| {
        assert Texts(ps[i := EMPTY_LINE], from) == Texts(ps[i := EMPTY_LINE], from + 1);
      }
    } else if i < |ps| {
      TextsSame(ps, ps[i := EMPTY_LINE], i + 1);
      assert Texts(ps[i := EMPTY_LINE], i) == [] + Texts(ps[i := EMPTY_LINE], i + 1);
    }
  }
}
