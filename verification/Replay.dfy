/** Replaying the event log to one subscriber (crates/nova-event/src/bus.rs, `replay`). */
module Replay {
  import opened Outcomes
  import opened Digests
  import opened Topics
  import opened SubscriptionTrie
  import opened EventStore
  import opened Channels

  const PAGE_SIZE: nat := 1000

  /** One event, by its offset, sent to one of the subscriber's subscriptions, by its place in the list. */
  datatype Delivery = Delivery(sub: nat, offset: nat)

  /** What a replay starts from; `accepts` evaluates content filters. */
  datatype Request = Request(
    log: seq<StoredEvent>,
    first: nat,
    cursor: nat,
    target: Option<nat>,
    subs: seq<Subscription>,
    accepts: (nat, Bytes) -> bool,
    channels: Channels)

  /** `refused` holds the deliveries a full or disconnected channel turned down. */
  datatype Progress = Progress(channels: Channels, sent: seq<Delivery>, refused: set<Delivery>, cursor: nat)

  predicate Wanted(sub: Subscription, stored: StoredEvent, accepts: (nat, Bytes) -> bool) {
    sub.active && Matches(sub.topic, stored.eventType) && accepts(sub.filter, stored.payload)
  }

  predicate PastTarget(target: Option<nat>, stored: StoredEvent) {
    target.Some? && stored.timestamp > target.value
  }

  /** Replayed events are rebuilt from the log and are not persistent again. */
  function Rebuilt(stored: StoredEvent): Event {
    Event(stored.eventId, stored.eventType, stored.timestamp, stored.orderingKey, stored.payload, false)
  }

  /** What is sent again is the event that was stored, field by field, but no longer persistent. */
  lemma RebuiltIsStored(offset: nat, event: Event)
    ensures Rebuilt(Stored(offset, event)) == event.(persistent := false)
  {}

  /** One turn of the innermost loop. */
  function Offered(p: Progress, k: nat, sub: Subscription, stored: StoredEvent, accepts: (nat, Bytes) -> bool)
    : Progress
  {
    if !Wanted(sub, stored, accepts) then p
    else if TrySend(p.channels, sub.sender) != Sent then p.(refused := p.refused + {Delivery(k, stored.offset)})
    else Progress(AfterSend(p.channels, sub.sender, Rebuilt(stored)), p.sent + [Delivery(k, stored.offset)],
                  p.refused, stored.offset)
  }

  // ---- What a replay keeps ----

  /** A delivery that ought to be made: retained, beyond the cursor, wanted. */
  ghost predicate Owed(q: Request, d: Delivery) {
    && d.sub < |q.subs| && q.first <= d.offset < |q.log| && q.cursor < d.offset
    && Wanted(q.subs[d.sub], q.log[d.offset], q.accepts)
  }

  ghost predicate Before(d: Delivery, offset: nat, sub: nat) {
    d.offset < offset || (d.offset == offset && d.sub < sub)
  }

  ghost function Made(sent: seq<Delivery>): set<Delivery> {
    if sent == [] then {} else Made(sent[..|sent| - 1]) + {sent[|sent| - 1]}
  }

  lemma {:induction false} MadeIsSent(sent: seq<Delivery>, d: Delivery)
    ensures d in Made(sent) <==> d in sent
    decreases |sent|
  {
    if sent != [] {
      MadeIsSent(sent[..|sent| - 1], d);
      assert sent == sent[..|sent| - 1] + [sent[|sent| - 1]];
    }
  }

  lemma MadeOneMore(sent: seq<Delivery>, d: Delivery)
    ensures Made(sent + [d]) == Made(sent) + {d}
  {}

  /** All offers before `(offset, sub)` have been made, and none later. */
  ghost predicate Covered(q: Request, p: Progress, offset: nat, sub: nat) {
    && (forall d :: d in Made(p.sent) ==> Owed(q, d) && Before(d, offset, sub))
    && (forall d :: Owed(q, d) && Before(d, offset, sub) ==> d in Made(p.sent) || d in p.refused)
    && (forall d :: d in p.refused ==> Owed(q, d) && d !in Made(p.sent))
  }

  /** What was refused would be refused again. */
  ghost predicate Stuck(q: Request, p: Progress) {
    forall d :: d in p.refused ==> d.sub < |q.subs| && TrySend(p.channels, q.subs[d.sub].sender) != Sent
  }

  /** Behind a refused delivery its channel took none, and no channel took one beyond its room. */
  ghost predicate InTurn(q: Request, p: Progress) {
    && (forall d, e :: d in Made(p.sent) && e in p.refused ==> SameChannel(q, d, e) ==> Before(d, e.offset, e.sub))
    && (forall d :: d in Made(p.sent) ==> d.sub < |q.subs| && NotOverfull(p.channels, q.subs[d.sub].sender))
  }

  ghost predicate SameChannel(q: Request, d: Delivery, e: Delivery) {
    d.sub < |q.subs| && e.sub < |q.subs| && q.subs[d.sub].sender == q.subs[e.sub].sender
  }

  ghost predicate NotOverfull(channels: Channels, id: nat) {
    && id in channels && channels[id].connected
    && |channels[id].accepted| <= channels[id].taken + channels[id].capacity
  }

  function Start(q: Request, cursor: nat): nat {
    if cursor + 1 < q.first then q.first else cursor + 1
  }

  /** The cursor is at the last delivery, and each delivery comes behind the one before, within a page of it. */
  ghost predicate Ordered(q: Request, p: Progress) {
    && (p.sent == [] ==> p.cursor == q.cursor)
    && (p.sent != [] ==> && p.cursor == p.sent[|p.sent| - 1].offset
                         && q.cursor < p.sent[0].offset < Start(q, q.cursor) + PAGE_SIZE)
    && (forall i :: 0 < i < |p.sent| ==>
          && Before(p.sent[i - 1], p.sent[i].offset, p.sent[i].sub)
          && p.sent[i].offset < Start(q, p.sent[i - 1].offset) + PAGE_SIZE)
    && q.cursor <= p.cursor
  }

  /** What the deliveries put into one channel, in order. */
  ghost function SentTo(q: Request, sent: seq<Delivery>, id: nat): seq<Event> {
    if sent == [] then []
    else
      var last := sent[|sent| - 1];
      SentTo(q, sent[..|sent| - 1], id)
      + (if Through(q, last, id) then [Rebuilt(q.log[last.offset])] else [])
  }

  /** Each channel took exactly the events delivered to it, and nothing else happened to it. */
  ghost predicate ChannelsTell(q: Request, p: Progress) {
    && p.channels.Keys == q.channels.Keys
    && forall id :: id in p.channels ==>
         p.channels[id] == q.channels[id].(accepted := q.channels[id].accepted + SentTo(q, p.sent, id))
  }

  ghost predicate OfferedUpTo(q: Request, p: Progress, offset: nat, sub: nat) {
    Covered(q, p, offset, sub) && Stuck(q, p) && InTurn(q, p) && Ordered(q, p) && ChannelsTell(q, p)
  }

  lemma OfferCovers(q: Request, p: Progress, offset: nat, k: nat)
    requires Numbered(q.log) && q.first <= offset < |q.log| && q.cursor < offset && k < |q.subs|
    requires Covered(q, p, offset, k) && Stuck(q, p)
    ensures Covered(q, Offered(p, k, q.subs[k], q.log[offset], q.accepts), offset, k + 1)
  {
    var d := Delivery(k, offset);
    MadeOneMore(p.sent, d);
    assert Wanted(q.subs[k], q.log[offset], q.accepts) <==> Owed(q, d);
    forall e ensures Before(e, offset, k + 1) <==> Before(e, offset, k) || e == d {}
  }

  /** A send makes no full or disconnected channel accept again. */
  lemma OfferKeepsStuck(q: Request, p: Progress, offset: nat, k: nat)
    requires offset < |q.log| && q.log[offset].offset == offset && k < |q.subs| && Stuck(q, p)
    ensures Stuck(q, Offered(p, k, q.subs[k], q.log[offset], q.accepts))
  {}

  lemma OfferKeepsTurn(q: Request, p: Progress, offset: nat, k: nat)
    requires offset < |q.log| && q.log[offset].offset == offset && k < |q.subs|
    requires Covered(q, p, offset, k) && Stuck(q, p) && InTurn(q, p)
    ensures InTurn(q, Offered(p, k, q.subs[k], q.log[offset], q.accepts))
  {
    MadeOneMore(p.sent, Delivery(k, offset));
  }

  lemma OfferKeepsOrder(q: Request, p: Progress, offset: nat, k: nat)
    requires offset < |q.log| && q.log[offset].offset == offset && k < |q.subs|
    requires Ordered(q, p) && q.cursor < offset < Start(q, p.cursor) + PAGE_SIZE
    requires p.sent != [] ==> Before(p.sent[|p.sent| - 1], offset, k)
    ensures Ordered(q, Offered(p, k, q.subs[k], q.log[offset], q.accepts))
  {}

  ghost predicate Through(q: Request, d: Delivery, id: nat) {
    d.sub < |q.subs| && d.offset < |q.log| && q.subs[d.sub].sender == id
  }

  lemma SentOneMore(q: Request, sent: seq<Delivery>, d: Delivery, id: nat)
    ensures SentTo(q, sent + [d], id)
            == SentTo(q, sent, id) + if Through(q, d, id) then [Rebuilt(q.log[d.offset])] else []
  {
    assert (sent + [d])[..|sent|] == sent;
  }

  lemma SendTells(q: Request, p: Progress, d: Delivery)
    requires ChannelsTell(q, p) && d.sub < |q.subs| && d.offset < |q.log| && q.subs[d.sub].sender in p.channels
    ensures ChannelsTell(q, Progress(AfterSend(p.channels, q.subs[d.sub].sender, Rebuilt(q.log[d.offset])),
                                     p.sent + [d], p.refused, d.offset))
  {
    forall id | id in p.channels
      ensures SentTo(q, p.sent + [d], id)
              == SentTo(q, p.sent, id) + if Through(q, d, id) then [Rebuilt(q.log[d.offset])] else []
    {
      SentOneMore(q, p.sent, d, id);
    }
  }

  lemma OfferTells(q: Request, p: Progress, offset: nat, k: nat)
    requires offset < |q.log| && q.log[offset].offset == offset && k < |q.subs| && ChannelsTell(q, p)
    ensures ChannelsTell(q, Offered(p, k, q.subs[k], q.log[offset], q.accepts))
  {
    if Wanted(q.subs[k], q.log[offset], q.accepts) && TrySend(p.channels, q.subs[k].sender) == Sent {
      SendTells(q, p, Delivery(k, offset));
    }
  }

  lemma OfferKeeps(q: Request, p: Progress, offset: nat, k: nat)
    requires Numbered(q.log) && q.first <= offset < |q.log| && k < |q.subs|
    requires q.cursor < offset < Start(q, p.cursor) + PAGE_SIZE
    requires OfferedUpTo(q, p, offset, k)
    ensures var after := Offered(p, k, q.subs[k], q.log[offset], q.accepts);
            OfferedUpTo(q, after, offset, k + 1) && (after.cursor == p.cursor || after.cursor == offset)
  {
    if p.sent != [] { MadeIsSent(p.sent, p.sent[|p.sent| - 1]); }
    OfferCovers(q, p, offset, k);
    OfferKeepsStuck(q, p, offset, k);
    OfferKeepsTurn(q, p, offset, k);
    OfferKeepsOrder(q, p, offset, k);
    OfferTells(q, p, offset, k);
  }

  lemma NextOffset(q: Request, p: Progress, offset: nat)
    requires OfferedUpTo(q, p, offset, |q.subs|)
    ensures OfferedUpTo(q, p, offset + 1, 0)
  {
    CoveredNext(q, p, offset);
  }

  lemma CoveredNext(q: Request, p: Progress, offset: nat)
    requires Covered(q, p, offset, |q.subs|)
    ensures Covered(q, p, offset + 1, 0)
  {}

  /** A new page starts over right behind the last delivery, or at the first event still retained. */
  lemma BackToCursor(q: Request, p: Progress, offset: nat)
    requires OfferedUpTo(q, p, offset, 0) && p.cursor < offset
    ensures OfferedUpTo(q, p, Start(q, p.cursor), 0)
  {
    forall d | d in Made(p.sent) ensures d.offset <= p.cursor {
      MadeIsSent(p.sent, d);
      var i :| 0 <= i < |p.sent| && p.sent[i] == d;
      NeverBack(q, p, i, |p.sent| - 1);
    }
  }

  /** Deliveries are in the order of their offsets, and of the subscriptions for one offset. */
  lemma {:induction false} NeverBack(q: Request, p: Progress, i: nat, j: nat)
    requires Ordered(q, p) && i <= j < |p.sent|
    ensures i < j ==> Before(p.sent[i], p.sent[j].offset, p.sent[j].sub)
    ensures q.cursor < p.sent[j].offset && p.sent[i].offset <= p.sent[j].offset
    decreases j
  {
    if i < j {
      NeverBack(q, p, i, j - 1);
    } else if i > 0 {
      NeverBack(q, p, i - 1, j - 1);
    }
  }

  // ---- How a replay ends ----

  datatype End = Finished | ReachedTarget(at: nat) | Diverges

  ghost predicate NonePast(q: Request, from: nat, to: nat)
    requires to <= |q.log|
  {
    forall o :: from <= o < to ==> !PastTarget(q.target, q.log[o])
  }

  /** Each end says where the offers stopped. */
  ghost predicate EndsAt(q: Request, p: Progress, end: End) {
    var from := Start(q, p.cursor);
    match end
    case Finished =>
      && OfferedUpTo(q, p, if from < |q.log| then |q.log| else from, 0) && |q.log| < from + PAGE_SIZE
      && NonePast(q, Start(q, q.cursor), |q.log|)
    case ReachedTarget(at) =>
      && Start(q, q.cursor) <= at < |q.log| && at < from + PAGE_SIZE && PastTarget(q.target, q.log[at])
      && NonePast(q, Start(q, q.cursor), at) && OfferedUpTo(q, p, at, 0)
    case Diverges =>
      && from + PAGE_SIZE <= |q.log| && NonePast(q, Start(q, q.cursor), from + PAGE_SIZE)
      && OfferedUpTo(q, p, from + PAGE_SIZE, 0)
  }

  /**
  A replay that ends has offered exactly what was owed before the first event past the target:
  with no refused send it has delivered exactly that.
  */
  lemma DeliversExactly(q: Request, p: Progress, end: End, d: Delivery)
    requires EndsAt(q, p, end) && !end.Diverges?
    ensures var due := && d.sub < |q.subs| && d.offset < |q.log|
                       && q.first <= d.offset && q.cursor < d.offset
                       && q.subs[d.sub].active && Matches(q.subs[d.sub].topic, q.log[d.offset].eventType)
                       && q.accepts(q.subs[d.sub].filter, q.log[d.offset].payload)
                       && (end.ReachedTarget? ==> d.offset < end.at);
            && (d in p.sent ==> due)
            && (due ==> d in p.sent || d in p.refused)
            && (p.refused == {} ==> (d in p.sent <==> due))
  {
    MadeIsSent(p.sent, d);
    if end.Finished? && d in p.sent { assert Owed(q, d); }
  }

  /** The target is reached at the first event past it that the replay comes to, if there is one. */
  lemma ReachesFirstPast(q: Request, p: Progress, end: End)
    requires EndsAt(q, p, end) && !end.Diverges?
    ensures end.ReachedTarget? ==>
              && end.at < |q.log| && q.target.Some? && q.log[end.at].timestamp > q.target.value
    ensures forall o ::
              q.cursor < o < (if end.ReachedTarget? then end.at else |q.log|) && q.first <= o && q.target.Some?
              ==> q.log[o].timestamp <= q.target.value
  {
    forall o | q.cursor < o < (if end.ReachedTarget? then end.at else |q.log|) && q.first <= o && q.target.Some?
      ensures q.log[o].timestamp <= q.target.value
    {
      assert !PastTarget(q.target, q.log[o]);
    }
  }

  lemma EndTells(q: Request, p: Progress, end: End)
    requires EndsAt(q, p, end)
    ensures ChannelsTell(q, p)
  {}

  /** Each subscription is sent strictly increasing offsets beyond the cursor, so nothing twice, whatever failed. */
  lemma OffsetsIncrease(q: Request, p: Progress, i: nat, j: nat)
    requires Ordered(q, p) && i < j < |p.sent| && p.sent[i].sub == p.sent[j].sub
    ensures q.cursor < p.sent[i].offset < p.sent[j].offset
  {
    NeverBack(q, p, i, j);
    NeverBack(q, p, i, i);
  }

  /** A replay that runs forever does so behind a full page of which every wanted event was refused. */
  lemma DivergesBehindRefusedPage(q: Request, p: Progress, d: Delivery)
    requires EndsAt(q, p, Diverges)
    requires Owed(q, d) && Start(q, p.cursor) <= d.offset < Start(q, p.cursor) + PAGE_SIZE
    ensures d in p.refused
  {
    MadeIsSent(p.sent, d);
    if d in p.sent {
      var i :| 0 <= i < |p.sent| && p.sent[i] == d;
      NeverBack(q, p, i, |p.sent| - 1);
    }
  }

  /** Offset zero is beyond the reach of every cursor. */
  lemma FirstEventIsNeverReplayed(q: Request, p: Progress, sub: nat)
    requires Ordered(q, p)
    ensures Delivery(sub, 0) !in p.sent
  {
    if Delivery(sub, 0) in p.sent {
      var i :| 0 <= i < |p.sent| && p.sent[i] == Delivery(sub, 0);
      NeverBack(q, p, i, i);
    }
  }

  // ---- What one event, one page and one round keep ----

  /** The offers of one event to the first `n` subscriptions. */
  function AllOffered(p: Progress, subs: seq<Subscription>, n: nat, stored: StoredEvent, accepts: (nat, Bytes) -> bool)
    : Progress
    requires n <= |subs|
  {
    if n == 0 then p else Offered(AllOffered(p, subs, n - 1, stored, accepts), n - 1, subs[n - 1], stored, accepts)
  }

  /** The offers of the first `n` events of a page. */
  function PageOffered(p: Progress, page: seq<StoredEvent>, n: nat, subs: seq<Subscription>,
                       accepts: (nat, Bytes) -> bool): Progress
    requires n <= |page|
  {
    if n == 0 then p else AllOffered(PageOffered(p, page, n - 1, subs, accepts), subs, |subs|, page[n - 1], accepts)
  }

  /** What every offer keeps, all of them together keep. */
  lemma {:induction false} AllOfferedInduction(keeps: (Progress, nat) -> bool, before: Progress,
                                               subs: seq<Subscription>, n: nat, stored: StoredEvent,
                                               accepts: (nat, Bytes) -> bool)
    requires n <= |subs| && keeps(before, 0)
    requires forall p: Progress, k: nat ::
               k < n && keeps(p, k) ==> keeps(Offered(p, k, subs[k], stored, accepts), k + 1)
    ensures keeps(AllOffered(before, subs, n, stored, accepts), n)
  {
    if n > 0 {
      AllOfferedInduction(keeps, before, subs, n - 1, stored, accepts);
    }
  }

  ghost predicate OfferedFrom(q: Request, before: Progress, p: Progress, offset: nat, k: nat) {
    OfferedUpTo(q, p, offset, k) && (p.cursor == before.cursor || p.cursor == offset)
  }

  lemma OfferedFromKeeps(q: Request, before: Progress, p: Progress, offset: nat, k: nat)
    requires Numbered(q.log) && q.first <= offset < |q.log| && k < |q.subs|
    requires before.cursor <= offset < Start(q, before.cursor) + PAGE_SIZE && q.cursor < offset
    requires OfferedFrom(q, before, p, offset, k)
    ensures OfferedFrom(q, before, Offered(p, k, q.subs[k], q.log[offset], q.accepts), offset, k + 1)
  {
    OfferKeeps(q, p, offset, k);
  }

  lemma AllOfferedKeeps(q: Request, before: Progress, offset: nat)
    requires Numbered(q.log) && q.first <= offset < |q.log|
    requires before.cursor <= offset < Start(q, before.cursor) + PAGE_SIZE && q.cursor < offset
    requires OfferedUpTo(q, before, offset, 0)
    ensures OfferedFrom(q, before, AllOffered(before, q.subs, |q.subs|, q.log[offset], q.accepts), offset, |q.subs|)
  {
    var keeps := (p: Progress, k: nat) => OfferedFrom(q, before, p, offset, k);
    forall p: Progress, k: nat | k < |q.subs| && keeps(p, k)
      ensures keeps(Offered(p, k, q.subs[k], q.log[offset], q.accepts), k + 1)
    {
      OfferedFromKeeps(q, before, p, offset, k);
    }
    AllOfferedInduction(keeps, before, q.subs, |q.subs|, q.log[offset], q.accepts);
  }

  /** Between two rounds: everything up to the next page has been offered. */
  ghost predicate ReadyForRound(q: Request, p: Progress) {
    var from := Start(q, p.cursor);
    && OfferedUpTo(q, p, from, 0)
    && NonePast(q, Start(q, q.cursor), if from <= |q.log| then from else |q.log|)
  }

  /** After the part of a page up to offset `at`. */
  ghost predicate PagePassed(q: Request, before: Progress, p: Progress, at: nat) {
    var start := Start(q, before.cursor);
    && Start(q, q.cursor) <= start <= at <= |q.log| && at <= start + PAGE_SIZE
    && NonePast(q, Start(q, q.cursor), at) && OfferedUpTo(q, p, at, 0)
    && (p.cursor == before.cursor || start <= p.cursor < at)
  }

  lemma PageStarts(q: Request, before: Progress)
    requires ReadyForRound(q, before) && Start(q, before.cursor) <= |q.log|
    ensures PagePassedBy(q, before, before, 0)
  {}

  lemma PageGoesOn(q: Request, before: Progress, p: Progress, at: nat)
    requires Numbered(q.log) && PagePassed(q, before, p, at)
    requires at < |q.log| && at < Start(q, before.cursor) + PAGE_SIZE && !PastTarget(q.target, q.log[at])
    ensures PagePassed(q, before, AllOffered(p, q.subs, |q.subs|, q.log[at], q.accepts), at + 1)
  {
    var after := AllOffered(p, q.subs, |q.subs|, q.log[at], q.accepts);
    EventOffered(q, before, p, at, after);
    PassedOneMore(q, before, p, at, after);
  }

  lemma EventOffered(q: Request, before: Progress, p: Progress, at: nat, after: Progress)
    requires Numbered(q.log) && PagePassed(q, before, p, at) && at < |q.log| && at < Start(q, before.cursor) + PAGE_SIZE
    requires after == AllOffered(p, q.subs, |q.subs|, q.log[at], q.accepts)
    ensures OfferedUpTo(q, after, at + 1, 0) && (after.cursor == p.cursor || after.cursor == at)
  {
    AllOfferedKeeps(q, p, at);
    NextOffset(q, after, at);
  }

  lemma PassedOneMore(q: Request, before: Progress, p: Progress, at: nat, after: Progress)
    requires PagePassed(q, before, p, at) && OfferedUpTo(q, after, at + 1, 0)
    requires after.cursor == p.cursor || after.cursor == at
    requires at < |q.log| && at < Start(q, before.cursor) + PAGE_SIZE && !PastTarget(q.target, q.log[at])
    ensures PagePassed(q, before, after, at + 1)
  {}

  /** What the offers of each event keep, a page of them keeps. */
  lemma {:induction false} PageOfferedInduction(keeps: (Progress, nat) -> bool, before: Progress,
                                                page: seq<StoredEvent>, n: nat, subs: seq<Subscription>,
                                                accepts: (nat, Bytes) -> bool)
    requires n <= |page| && keeps(before, 0)
    requires forall p: Progress, k: nat ::
               k < n && keeps(p, k) ==> keeps(AllOffered(p, subs, |subs|, page[k], accepts), k + 1)
    ensures keeps(PageOffered(before, page, n, subs, accepts), n)
  {
    if n > 0 {
      PageOfferedInduction(keeps, before, page, n - 1, subs, accepts);
    }
  }

  /** The page lies behind the cursor, and its first `n` events are not past the target. */
  ghost predicate PageBehind(q: Request, cursor: nat, page: seq<StoredEvent>, n: nat) {
    var start := Start(q, cursor);
    && start + |page| <= |q.log| && page == q.log[start..start + |page|] && n <= |page| <= PAGE_SIZE
    && forall i :: 0 <= i < n ==> !PastTarget(q.target, page[i])
  }

  ghost predicate PagePassedBy(q: Request, before: Progress, p: Progress, k: nat) {
    PagePassed(q, before, p, Start(q, before.cursor) + k)
  }

  lemma EventPassed(q: Request, before: Progress, page: seq<StoredEvent>, n: nat, p: Progress, k: nat)
    requires Numbered(q.log) && PageBehind(q, before.cursor, page, n) && k < n && PagePassedBy(q, before, p, k)
    ensures PagePassedBy(q, before, AllOffered(p, q.subs, |q.subs|, page[k], q.accepts), k + 1)
  {
    var at := Start(q, before.cursor) + k;
    assert page[k] == q.log[at];
    PageGoesOn(q, before, p, at);
  }

  lemma PageOfferedKeeps(q: Request, before: Progress, page: seq<StoredEvent>, n: nat)
    requires Numbered(q.log) && PageBehind(q, before.cursor, page, n) && PagePassedBy(q, before, before, 0)
    ensures PagePassedBy(q, before, PageOffered(before, page, n, q.subs, q.accepts), n)
  {
    var keeps := (p: Progress, k: nat) => PagePassedBy(q, before, p, k);
    forall p: Progress, k: nat | k < n && keeps(p, k)
      ensures keeps(AllOffered(p, q.subs, |q.subs|, page[k], q.accepts), k + 1)
    {
      EventPassed(q, before, page, n, p, k);
    }
    PageOfferedInduction(keeps, before, page, n, q.subs, q.accepts);
  }

  lemma PageFromStart(q: Request, cursor: nat, page: seq<StoredEvent>)
    requires Numbered(q.log) && q.first <= |q.log| && page == Page(q.log, q.first, cursor + 1, PAGE_SIZE)
    ensures |page| <= PAGE_SIZE
    ensures page == [] <==> |q.log| <= Start(q, cursor)
    ensures page != [] ==> var start := Start(q, cursor);
              && start + |page| <= |q.log| && page == q.log[start..start + |page|]
              && (|page| < PAGE_SIZE ==> start + |page| == |q.log|)
  {}

  lemma EmptyPageFinishes(q: Request, p: Progress)
    requires ReadyForRound(q, p) && |q.log| <= Start(q, p.cursor)
    ensures EndsAt(q, p, Finished)
  {}

  lemma ShortPageFinishes(q: Request, before: Progress, p: Progress)
    requires PagePassed(q, before, p, |q.log|) && q.first <= |q.log| < Start(q, before.cursor) + PAGE_SIZE
    ensures EndsAt(q, p, Finished)
  {}

  lemma TargetEnds(q: Request, before: Progress, p: Progress, at: nat)
    requires PagePassed(q, before, p, at) && at < |q.log| && PastTarget(q.target, q.log[at])
    requires at < Start(q, before.cursor) + PAGE_SIZE
    ensures EndsAt(q, p, ReachedTarget(at))
  {}

  lemma IdleFullPageDiverges(q: Request, before: Progress, p: Progress)
    requires PagePassed(q, before, p, Start(q, before.cursor) + PAGE_SIZE) && p.cursor == before.cursor
    ensures EndsAt(q, p, Diverges)
  {}

  lemma ReadyAgain(q: Request, before: Progress, p: Progress, at: nat)
    requires PagePassed(q, before, p, at) && p.cursor != before.cursor
    ensures ReadyForRound(q, p) && before.cursor < p.cursor < |q.log|
  {
    BackToCursor(q, p, at);
  }

  /** How a round ends: `n` events of the page came before the first one past the target. */
  function RoundEnd(before: Progress, p: Progress, page: seq<StoredEvent>, n: nat): Option<End>
    requires n <= |page|
  {
    if n < |page| then Some(ReachedTarget(page[n].offset))
    else if |page| < PAGE_SIZE then Some(Finished)
    else if p.cursor == before.cursor then Some(Diverges)
    else None
  }

  /** A round either ends the replay the way it says, or leaves it ready for the next round with the cursor moved on. */
  ghost predicate RoundLeadsTo(q: Request, before: Progress, p: Progress, end: Option<End>) {
    match end
    case Some(e) => EndsAt(q, p, e)
    case None => ReadyForRound(q, p) && before.cursor < p.cursor < |q.log|
  }

  lemma PageLeadsOn(q: Request, before: Progress, p: Progress, page: seq<StoredEvent>, n: nat)
    requires n <= |page| <= PAGE_SIZE && PagePassed(q, before, p, Start(q, before.cursor) + n) && q.first <= |q.log|
    requires n < |page| ==> var at := Start(q, before.cursor) + n;
                            at < |q.log| && PastTarget(q.target, q.log[at]) && page[n].offset == at
    requires |page| < PAGE_SIZE ==> Start(q, before.cursor) + |page| == |q.log|
    ensures RoundLeadsTo(q, before, p, RoundEnd(before, p, page, n))
  {
    var at := Start(q, before.cursor) + n;
    if n < |page| {
      TargetEnds(q, before, p, at);
    } else if |page| < PAGE_SIZE {
      ShortPageFinishes(q, before, p);
    } else if p.cursor == before.cursor {
      IdleFullPageDiverges(q, before, p);
    } else {
      ReadyAgain(q, before, p, at);
    }
  }

  lemma PageKeeps(q: Request, before: Progress, page: seq<StoredEvent>, n: nat)
    requires Numbered(q.log) && q.first <= |q.log| && ReadyForRound(q, before)
    requires page == Page(q.log, q.first, before.cursor + 1, PAGE_SIZE) && n <= |page|
    requires forall i :: 0 <= i < n ==> !PastTarget(q.target, page[i])
    requires n < |page| ==> PastTarget(q.target, page[n])
    ensures var p := PageOffered(before, page, n, q.subs, q.accepts);
            RoundLeadsTo(q, before, p, RoundEnd(before, p, page, n))
  {
    PageFromStart(q, before.cursor, page);
    if page == [] {
      EmptyPageFinishes(q, before);
    } else {
      PageStarts(q, before);
      PageOfferedKeeps(q, before, page, n);
      PageLeadsOn(q, before, PageOffered(before, page, n, q.subs, q.accepts), page, n);
    }
  }

  // ---- Rounds ----

  /** How many events of a page come before the first one past the target. */
  function BeforeTarget(target: Option<nat>, page: seq<StoredEvent>): (n: nat)
    ensures n <= |page|
    ensures forall i :: 0 <= i < n ==> !PastTarget(target, page[i])
    ensures n < |page| ==> PastTarget(target, page[n])
  {
    if page == [] || PastTarget(target, page[0]) then 0 else 1 + BeforeTarget(target, page[1..])
  }

  function PageAt(q: Request, p: Progress): seq<StoredEvent> {
    Page(q.log, q.first, p.cursor + 1, PAGE_SIZE)
  }

  /** One turn of the outer loop. */
  function Round(q: Request, p: Progress): Progress {
    PageOffered(p, PageAt(q, p), BeforeTarget(q.target, PageAt(q, p)), q.subs, q.accepts)
  }

  function EndOfRound(q: Request, p: Progress): Option<End> {
    RoundEnd(p, Round(q, p), PageAt(q, p), BeforeTarget(q.target, PageAt(q, p)))
  }

  lemma RoundKeeps(q: Request, p: Progress)
    requires Numbered(q.log) && q.first <= |q.log| && ReadyForRound(q, p)
    ensures RoundLeadsTo(q, p, Round(q, p), EndOfRound(q, p))
  {
    PageKeeps(q, p, PageAt(q, p), BeforeTarget(q.target, PageAt(q, p)));
  }

  /** The outer loop takes another turn: the page was full and no event of it past the target. */
  predicate GoesOn(q: Request, p: Progress) {
    |PageAt(q, p)| == PAGE_SIZE == BeforeTarget(q.target, PageAt(q, p))
  }

  /** Where the outer loop stands after `n` turns, unless it has ended before. */
  function AfterRounds(q: Request, n: nat): Option<Progress> {
    if n == 0 then Some(Progress(q.channels, [], {}, q.cursor))
    else
      match AfterRounds(q, n - 1)
      case None => None
      case Some(p) => if GoesOn(q, p) then Some(Round(q, p)) else None
  }

  ghost predicate RunsForever(q: Request) {
    forall n: nat :: AfterRounds(q, n).Some?
  }

  lemma {:induction false} EndedStaysEnded(q: Request, n: nat, m: nat)
    requires n <= m && AfterRounds(q, n) == None
    ensures AfterRounds(q, m) == None
    decreases m
  {
    if n < m { EndedStaysEnded(q, n, m - 1); }
  }

  lemma {:induction false} RepeatsFrom(q: Request, n: nat, p: Progress, m: nat)
    requires n <= m && AfterRounds(q, n) == Some(p) && GoesOn(q, p) && Round(q, p) == p
    ensures AfterRounds(q, m) == Some(p)
    decreases m
  {
    if n < m { RepeatsFrom(q, n, p, m - 1); }
  }

  lemma {:induction false} OffersChangeNothing(q: Request, p: Progress, offset: nat, n: nat)
    requires offset < |q.log| && q.log[offset].offset == offset && n <= |q.subs| && Stuck(q, p)
    requires forall k ::
               0 <= k < |q.subs| && Wanted(q.subs[k], q.log[offset], q.accepts) ==> Delivery(k, offset) in p.refused
    ensures AllOffered(p, q.subs, n, q.log[offset], q.accepts) == p
  {
    if n > 0 {
      OffersChangeNothing(q, p, offset, n - 1);
      var d := Delivery(n - 1, offset);
      if d in p.refused { assert p.refused + {d} == p.refused; }
    }
  }

  lemma {:induction false} PageChangesNothing(q: Request, p: Progress, start: nat, page: seq<StoredEvent>, n: nat)
    requires Numbered(q.log) && Stuck(q, p) && n <= |page|
    requires start + |page| <= |q.log| && page == q.log[start..start + |page|]
    requires AllRefused(q, p, start, |page|)
    ensures PageOffered(p, page, n, q.subs, q.accepts) == p
  {
    if n > 0 {
      PageChangesNothing(q, p, start, page, n - 1);
      var offset := start + (n - 1);
      assert page[n - 1] == q.log[offset];
      forall k | 0 <= k < |q.subs| && Wanted(q.subs[k], q.log[offset], q.accepts)
        ensures Delivery(k, offset) in p.refused
      {
        var d := Delivery(k, offset);
        assert d.sub < |q.subs| && start <= d.offset < start + |page|;
      }
      OffersChangeNothing(q, p, offset, |q.subs|);
    }
  }

  /** Every wanted event of the page starting at `start` has been refused. */
  ghost predicate AllRefused(q: Request, p: Progress, start: nat, length: nat)
    requires start + length <= |q.log|
  {
    forall d: Delivery ::
      d.sub < |q.subs| && start <= d.offset < start + length && Wanted(q.subs[d.sub], q.log[d.offset], q.accepts)
      ==> d in p.refused
  }

  lemma DivergingPage(q: Request, p: Progress)
    requires Numbered(q.log) && q.first <= |q.log| && EndsAt(q, p, Diverges)
    ensures var start := Start(q, p.cursor);
            && start + PAGE_SIZE <= |q.log| && NonePast(q, start, start + PAGE_SIZE)
            && AllRefused(q, p, start, PAGE_SIZE) && Stuck(q, p)
  {
    var start := Start(q, p.cursor);
    forall d: Delivery |
      d.sub < |q.subs| && start <= d.offset < start + PAGE_SIZE && Wanted(q.subs[d.sub], q.log[d.offset], q.accepts)
      ensures d in p.refused
    {
      assert Owed(q, d);
      DivergesBehindRefusedPage(q, p, d);
    }
  }

  lemma RefusedPageRepeats(q: Request, p: Progress)
    requires Numbered(q.log) && q.first <= |q.log| && Start(q, p.cursor) + PAGE_SIZE <= |q.log| && Stuck(q, p)
    requires NonePast(q, Start(q, p.cursor), Start(q, p.cursor) + PAGE_SIZE)
    requires AllRefused(q, p, Start(q, p.cursor), PAGE_SIZE)
    ensures GoesOn(q, p) && Round(q, p) == p
  {
    var start, page := Start(q, p.cursor), PageAt(q, p);
    PageFromStart(q, p.cursor, page);
    assert page == q.log[start..start + PAGE_SIZE];
    assert forall i :: 0 <= i < PAGE_SIZE ==> page[i] == q.log[start + i];
    PageChangesNothing(q, p, start, page, PAGE_SIZE);
  }

  /** Behind a full page that delivers nothing, the next round reads the same page and again changes nothing. */
  lemma DivergingRoundRepeats(q: Request, p: Progress)
    requires Numbered(q.log) && q.first <= |q.log| && EndsAt(q, p, Diverges)
    ensures GoesOn(q, p) && Round(q, p) == p
  {
    DivergingPage(q, p);
    RefusedPageRepeats(q, p);
  }

  /** From this progress on the loop would only repeat its last round. */
  ghost predicate Repeats(q: Request, p: Progress) {
    GoesOn(q, p) && Round(q, p) == p
  }

  lemma RepeatingNeverEnds(q: Request, n: nat, p: Progress)
    requires AfterRounds(q, n) == Some(p) && Repeats(q, p)
    ensures RunsForever(q)
  {
    forall m: nat ensures AfterRounds(q, m).Some? {
      if m < n {
        if AfterRounds(q, m) == None { EndedStaysEnded(q, m, n); }
      } else {
        RepeatsFrom(q, n, p, m);
      }
    }
  }

  /** What one more round shows about the whole replay. */
  lemma RoundSettles(q: Request, n: nat, before: Progress, p: Progress, end: Option<End>)
    requires AfterRounds(q, n) == Some(before) && p == Round(q, before) && end == EndOfRound(q, before)
    requires end == Some(Diverges) ==> Repeats(q, p)
    ensures end == None ==> AfterRounds(q, n + 1) == Some(p)
    ensures end.Some? ==> (end.value.Diverges? <==> RunsForever(q))
  {
    if end.None? || end.value.Diverges? {
      assert AfterRounds(q, n + 1) == Some(p);
      if end.Some? { RepeatingNeverEnds(q, n + 1, p); }
    } else {
      assert AfterRounds(q, n + 1) == None;
    }
  }

  lemma DivergingRound(q: Request, before: Progress)
    requires Numbered(q.log) && q.first <= |q.log| && ReadyForRound(q, before)
    ensures EndOfRound(q, before) == Some(Diverges) ==> Repeats(q, Round(q, before))
  {
    RoundKeeps(q, before);
    if EndOfRound(q, before) == Some(Diverges) {
      DivergingRoundRepeats(q, Round(q, before));
    }
  }

  /** A round that keeps `ready` leads on or ends with `ends`. */
  ghost predicate Leads(q: Request, ready: Progress -> bool, ends: (Progress, End) -> bool, p: Progress) {
    match EndOfRound(q, p)
    case Some(end) => ends(Round(q, p), end) && (end.Diverges? ==> Repeats(q, Round(q, p)))
    case None => ready(Round(q, p)) && p.cursor < Round(q, p).cursor < |q.log|
  }

  lemma {:induction false} OutcomeInduction(q: Request, ready: Progress -> bool, ends: (Progress, End) -> bool,
                                            n: nat, before: Progress)
    returns (p: Progress, end: End)
    requires AfterRounds(q, n) == Some(before) && ready(before)
    requires forall b :: ready(b) ==> Leads(q, ready, ends, b)
    ensures ends(p, end) && (end.Diverges? <==> RunsForever(q))
    decreases |q.log| + 1 - before.cursor
  {
    p := Round(q, before);
    assert Leads(q, ready, ends, before);
    RoundSettles(q, n, before, p, EndOfRound(q, before));
    if EndOfRound(q, before).Some? {
      end := EndOfRound(q, before).value;
    } else {
      p, end := OutcomeInduction(q, ready, ends, n + 1, p);
    }
  }

  /** Every replay comes to an end, or to the round it repeats forever. */
  lemma ReplayOutcome(q: Request) returns (p: Progress, end: End)
    requires Numbered(q.log) && q.first <= |q.log|
    ensures EndsAt(q, p, end) && (end.Diverges? <==> RunsForever(q))
  {
    var ready, ends := (b: Progress) => ReadyForRound(q, b), (b: Progress, e: End) => EndsAt(q, b, e);
    forall b | ready(b) ensures Leads(q, ready, ends, b) {
      RoundKeeps(q, b);
      DivergingRound(q, b);
    }
    p, end := OutcomeInduction(q, ready, ends, 0, Progress(q.channels, [], {}, q.cursor));
  }

  // ---- The code ----

  /** The innermost loop: one event to each subscription. */
  method OfferToAll(subs: seq<Subscription>, accepts: (nat, Bytes) -> bool, before: Progress, stored: StoredEvent)
    returns (p: Progress)
    ensures p == AllOffered(before, subs, |subs|, stored, accepts)
  {
    p := before;
    for k := 0 to |subs|
      invariant p == AllOffered(before, subs, k, stored, accepts)
    {
      p := Offered(p, k, subs[k], stored, accepts);
    }
  }

  /** The loop over the events of one page; it may stop at an event past the target. */
  method ReplayPage(target: Option<nat>, subs: seq<Subscription>, accepts: (nat, Bytes) -> bool,
                    before: Progress, page: seq<StoredEvent>)
    returns (p: Progress, n: nat)
    ensures n == BeforeTarget(target, page) && p == PageOffered(before, page, n, subs, accepts)
  {
    p, n := before, 0;
    while n < |page|
      invariant n <= |page| && p == PageOffered(before, page, n, subs, accepts)
      invariant BeforeTarget(target, page) == n + BeforeTarget(target, page[n..])
    {
      if PastTarget(target, page[n]) {
        return;
      }
      assert page[n..][1..] == page[n + 1..];
      p := OfferToAll(subs, accepts, p, page[n]);
      n := n + 1;
    }
  }

  method ReplayRound(store: EventStore, ghost q: Request, target: Option<nat>, subs: seq<Subscription>,
                     accepts: (nat, Bytes) -> bool, before: Progress)
    returns (p: Progress, end: Option<End>)
    requires store.Valid() && q.log == store.log && q.first == FirstRetained(|store.log|, store.maxEntries)
    requires q.target == target && q.subs == subs && q.accepts == accepts
    ensures p == Round(q, before) && end == EndOfRound(q, before)
  {
    var page := store.ScanFrom(before.cursor + 1, PAGE_SIZE);
    var n;
    p, n := ReplayPage(target, subs, accepts, before, page);
    end := RoundEnd(before, p, page, n);
  }

  /**
  The outer loop. It ends unless it comes to a full page that delivers nothing: the next round then reads the same
  page again, and so on forever, which is reported as `Diverges`.
  */
  method ReplayAll(store: EventStore, ghost q: Request, cursor: nat, target: Option<nat>, subs: seq<Subscription>,
                   accepts: (nat, Bytes) -> bool, channels: Channels)
    returns (p: Progress, end: End)
    requires store.Valid()
    requires q == Request(store.log, FirstRetained(|store.log|, store.maxEntries), cursor, target, subs, accepts,
                          channels)
    ensures EndsAt(q, p, end) && (end.Diverges? <==> RunsForever(q))
  {
    p := Progress(channels, [], {}, cursor);
    ghost var n := 0;
    while true
      invariant ReadyForRound(q, p) && AfterRounds(q, n) == Some(p)
      decreases |q.log| + 1 - p.cursor
    {
      RoundKeeps(q, p);
      DivergingRound(q, p);
      RoundSettles(q, n, p, Round(q, p), EndOfRound(q, p));
      var done;
      p, done := ReplayRound(store, q, target, subs, accepts, p);
      if done != None {
        return p, done.value;
      }
      n := n + 1;
    }
  }
}
