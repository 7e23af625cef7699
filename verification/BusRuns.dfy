/** Runs of publishes and replays on one bus, with receivers and subscribers coming and going in between. */
module BusRuns {
  import opened SubscriptionTrie
  import opened EventStore
  import opened EventBus
  import Replay

  /** One publish that was let in: what it found and attempted, and whether it returned an id; or one replay. */
  datatype Turn =
    | Published(
        event: Event,
        live: multiset<Subscription>,
        found: seq<Subscription>,
        env: Environment,
        attempts: seq<Attempt>,
        ok: bool)
    | Replayed(q: Replay.Request, p: Replay.Progress, how: Replay.End)

  /** Between two turns receivers take events or leave, and subscribers come: nothing is sent, stored or counted. */
  ghost predicate Interlude(before: BusView, after: BusView) {
    && after.metrics == before.metrics && after.log == before.log
    && forall id :: id in before.channels ==>
                      id in after.channels && after.channels[id].accepted == before.channels[id].accepted
  }

  ghost predicate Takes(before: BusView, end: BusView, policy: OverflowPolicy, maxLetters: nat, turn: Turn) {
    match turn
    case Published(event, live, found, env, attempts, ok) =>
      PublishedAs(before, end, policy, maxLetters, live, found, event, env, attempts, ok)
    case Replayed(q, p, how) =>
      && q.channels == before.channels && q.log == before.log && Replay.EndsAt(q, p, how) && !how.Diverges?
      && end == before.(channels := p.channels,
                        metrics := before.metrics.(delivered := before.metrics.delivered + |p.sent|))
  }

  /** One turn and what comes before the next. */
  ghost predicate Moves(before: BusView, end: BusView, after: BusView, policy: OverflowPolicy, maxLetters: nat,
                        turn: Turn)
  {
    Takes(before, end, policy, maxLetters, turn) && Interlude(end, after)
  }

  /** `views[i]` is the bus before turn `i`, `ends[i]` the bus right after it. */
  ghost predicate Run(views: seq<BusView>, ends: seq<BusView>, turns: seq<Turn>, policy: OverflowPolicy,
                      maxLetters: nat)
  {
    && |views| == |turns| + 1 && |ends| == |turns|
    && forall i :: 0 <= i < |turns| ==> Moves(views[i], ends[i], views[i + 1], policy, maxLetters, turns[i])
  }

  // ---- Order of delivery ----

  /** What one channel takes in one turn. */
  ghost function TakenBy(turn: Turn, id: nat): seq<Event> {
    match turn
    case Published(event, _, _, _, attempts, _) => Received(attempts, event, id)
    case Replayed(q, p, _) => Replay.SentTo(q, p.sent, id)
  }

  ghost predicate ChannelGrows(before: BusView, after: BusView, id: nat, taken: seq<Event>) {
    id in before.channels ==>
      id in after.channels && after.channels[id].accepted == before.channels[id].accepted + taken
  }

  lemma MoveDelivers(before: BusView, end: BusView, after: BusView, policy: OverflowPolicy, maxLetters: nat,
                     turn: Turn, id: nat)
    requires Moves(before, end, after, policy, maxLetters, turn)
    ensures ChannelGrows(before, after, id, TakenBy(turn, id))
  {
    if id in before.channels {
      match turn {
        case Published(event, _, found, env, _, _) =>
          var start := Fanout(before.channels, [], true);
          FanOutDelivers(start, policy, found, event, env, id, before.channels[id].accepted);
        case Replayed(q, p, how) =>
          Replay.EndTells(q, p, how);
      }
    }
  }

  /** What is taken in the first `n` turns, one after the other. */
  ghost function TakenInTurn(turns: seq<Turn>, n: nat, taken: Turn -> seq<Event>): seq<Event>
    requires n <= |turns|
  {
    if n == 0 then [] else TakenInTurn(turns, n - 1, taken) + taken(turns[n - 1])
  }

  lemma {:induction false} ChannelAlong(views: seq<BusView>, turns: seq<Turn>, n: nat, id: nat,
                                        taken: Turn -> seq<Event>)
    requires |views| == |turns| + 1 && n <= |turns| && id in views[0].channels
    requires forall i :: 0 <= i < |turns| ==> ChannelGrows(views[i], views[i + 1], id, taken(turns[i]))
    ensures id in views[n].channels
    ensures views[n].channels[id].accepted == views[0].channels[id].accepted + TakenInTurn(turns, n, taken)
  {
    if n > 0 {
      ChannelAlong(views, turns, n - 1, id, taken);
      assert ChannelGrows(views[n - 1], views[n - 1 + 1], id, taken(turns[n - 1]));
    }
  }

  /** Over every run a subscriber's channel takes exactly what is published and replayed to it, in that order. */
  lemma RunDelivers(views: seq<BusView>, ends: seq<BusView>, turns: seq<Turn>,
                    policy: OverflowPolicy, maxLetters: nat, n: nat, id: nat)
    requires Run(views, ends, turns, policy, maxLetters) && n <= |turns| && id in views[0].channels
    ensures id in views[n].channels
    ensures views[n].channels[id].accepted
            == views[0].channels[id].accepted + TakenInTurn(turns, n, turn => TakenBy(turn, id))
  {
    var taken := turn => TakenBy(turn, id);
    forall i | 0 <= i < |turns| ensures ChannelGrows(views[i], views[i + 1], id, taken(turns[i])) {
      MoveDelivers(views[i], ends[i], views[i + 1], policy, maxLetters, turns[i], id);
    }
    ChannelAlong(views, turns, n, id, taken);
  }

  // ---- What is stored ----

  /** What one turn adds to the log: a persistent event whose publish returned an id. */
  ghost function KeptBy(turn: Turn): seq<Event> {
    if turn.Published? && turn.ok && turn.event.persistent then [turn.event] else []
  }

  ghost function Numbering(first: nat, events: seq<Event>): seq<StoredEvent> {
    seq(|events|, i requires 0 <= i < |events| => Stored(first + i, events[i]))
  }

  ghost predicate LogGrows(before: BusView, after: BusView, turn: Turn) {
    after.log == before.log + Numbering(|before.log|, KeptBy(turn))
  }

  lemma MoveStores(before: BusView, end: BusView, after: BusView, policy: OverflowPolicy, maxLetters: nat, turn: Turn)
    requires Moves(before, end, after, policy, maxLetters, turn)
    ensures LogGrows(before, after, turn)
  {}

  ghost function KeptInTurn(turns: seq<Turn>, n: nat): seq<Event>
    requires n <= |turns|
  {
    if n == 0 then [] else KeptInTurn(turns, n - 1) + KeptBy(turns[n - 1])
  }

  lemma NumberingConcat(first: nat, events: seq<Event>, more: seq<Event>)
    ensures Numbering(first, events + more) == Numbering(first, events) + Numbering(first + |events|, more)
  {}

  lemma {:induction false} LogAlong(views: seq<BusView>, turns: seq<Turn>, n: nat)
    requires |views| == |turns| + 1 && n <= |turns|
    requires forall i :: 0 <= i < |turns| ==> LogGrows(views[i], views[i + 1], turns[i])
    ensures views[n].log == views[0].log + Numbering(|views[0].log|, KeptInTurn(turns, n))
  {
    if n > 0 {
      LogAlong(views, turns, n - 1);
      assert LogGrows(views[n - 1], views[n - 1 + 1], turns[n - 1]);
      NumberingConcat(|views[0].log|, KeptInTurn(turns, n - 1), KeptBy(turns[n - 1]));
    }
  }

  /** The log grows by exactly the persistent events whose publish returned an id, in order and numbered through. */
  lemma RunStores(views: seq<BusView>, ends: seq<BusView>, turns: seq<Turn>,
                  policy: OverflowPolicy, maxLetters: nat, n: nat)
    requires Run(views, ends, turns, policy, maxLetters) && n <= |turns|
    ensures views[n].log == views[0].log + Numbering(|views[0].log|, KeptInTurn(turns, n))
  {
    forall i | 0 <= i < |turns| ensures LogGrows(views[i], views[i + 1], turns[i]) {
      MoveStores(views[i], ends[i], views[i + 1], policy, maxLetters, turns[i]);
    }
    LogAlong(views, turns, n);
  }

  // ---- What is sent again ----

  /** What deliveries of kept events, by their offsets, put into one channel: the events as they were published. */
  ghost function Resent(q: Replay.Request, sent: seq<Replay.Delivery>, kept: seq<Event>, id: nat): seq<Event> {
    if sent == [] then []
    else
      var last := sent[|sent| - 1];
      Resent(q, sent[..|sent| - 1], kept, id)
      + (if last.sub < |q.subs| && last.offset < |kept| && q.subs[last.sub].sender == id
         then [kept[last.offset].(persistent := false)] else [])
  }

  lemma {:induction false} SentIsResent(q: Replay.Request, sent: seq<Replay.Delivery>, kept: seq<Event>, id: nat)
    requires q.log == Numbering(0, kept)
    ensures Replay.SentTo(q, sent, id) == Resent(q, sent, kept, id)
    decreases |sent|
  {
    if sent != [] {
      var offset := sent[|sent| - 1].offset;
      SentIsResent(q, sent[..|sent| - 1], kept, id);
      if offset < |kept| {
        assert q.log[offset] == Stored(offset, kept[offset]);
        Replay.RebuiltIsStored(offset, kept[offset]);
      }
    }
  }

  /** A replay puts into each channel exactly events that were published before, as they were but not persistent. */
  lemma ReplaySendsPublished(views: seq<BusView>, ends: seq<BusView>, turns: seq<Turn>,
                             policy: OverflowPolicy, maxLetters: nat, n: nat, id: nat)
    requires Run(views, ends, turns, policy, maxLetters) && views[0].log == []
    requires n < |turns| && turns[n].Replayed? && id in views[n].channels
    ensures id in ends[n].channels
    ensures ends[n].channels[id].accepted
            == views[n].channels[id].accepted + Resent(turns[n].q, turns[n].p.sent, KeptInTurn(turns, n), id)
  {
    RunStores(views, ends, turns, policy, maxLetters, n);
    assert [] + Numbering(0, KeptInTurn(turns, n)) == Numbering(0, KeptInTurn(turns, n));
    assert Moves(views[n], ends[n], views[n + 1], policy, maxLetters, turns[n]);
    Replay.EndTells(turns[n].q, turns[n].p, turns[n].how);
    SentIsResent(turns[n].q, turns[n].p.sent, KeptInTurn(turns, n), id);
  }

  /** What is kept was published as a persistent event by an earlier turn that returned an id. */
  lemma {:induction false} KeptWasPublished(turns: seq<Turn>, n: nat, offset: nat) returns (m: nat)
    requires n <= |turns| && offset < |KeptInTurn(turns, n)|
    ensures m < n && turns[m].Published? && turns[m].ok && turns[m].event.persistent
    ensures KeptInTurn(turns, n)[offset] == turns[m].event
  {
    m := n - 1;
    if offset < |KeptInTurn(turns, n - 1)| {
      m := KeptWasPublished(turns, n - 1, offset);
    }
  }

  // ---- The counters ----

  /** Delivered, dropped and rejected, all counted since the metrics began. */
  function Settled(m: Metrics): nat {
    m.delivered + m.dropped + m.rejected
  }

  /** What one turn is to be accounted for. */
  datatype Account = Account(
    publishes: nat,
    rejections: nat,
    deliveries: nat,
    drops: nat,
    attempts: nat,
    deadLetters: nat)
  {
    function Plus(other: Account): Account {
      Account(publishes + other.publishes, rejections + other.rejections, deliveries + other.deliveries,
              drops + other.drops, attempts + other.attempts, deadLetters + other.deadLetters)
    }
  }

  /** A replay counts nothing but its successful sends. */
  ghost function AccountOf(turn: Turn): Account {
    match turn
    case Published(_, _, _, _, attempts, ok) =>
      Account(1, if ok then 0 else 1, CountFate(attempts, Delivered), CountFate(attempts, Dropped), |attempts|,
              CountFate(attempts, DeadLettered))
    case Replayed(_, p, _) => Account(0, 0, |p.sent|, 0, |p.sent|, 0)
  }

  /** The counters have moved by the account. */
  ghost predicate CountersMove(m: Metrics, now: Metrics, account: Account) {
    && now.published == m.published + account.publishes
    && now.rejected == m.rejected + account.rejections
    && now.delivered == m.delivered + account.deliveries
    && now.dropped == m.dropped + account.drops
    && Settled(now) + account.deadLetters == Settled(m) + account.attempts
  }

  lemma MoveAccounts(before: BusView, end: BusView, after: BusView, policy: OverflowPolicy, maxLetters: nat, turn: Turn)
    requires Moves(before, end, after, policy, maxLetters, turn)
    ensures CountersMove(before.metrics, after.metrics, AccountOf(turn))
  {
    if turn.Published? {
      FatesPartitionAttempts(turn.attempts);
      FanOutRejects(Fanout(before.channels, [], true), policy, turn.found, turn.event, turn.env);
    }
  }

  ghost function AccountInTurn(turns: seq<Turn>, n: nat): Account
    requires n <= |turns|
  {
    if n == 0 then Account(0, 0, 0, 0, 0, 0) else AccountInTurn(turns, n - 1).Plus(AccountOf(turns[n - 1]))
  }

  lemma {:induction false} CountersAlong(views: seq<BusView>, turns: seq<Turn>, n: nat)
    requires |views| == |turns| + 1 && n <= |turns|
    requires forall i :: 0 <= i < |turns| ==> CountersMove(views[i].metrics, views[i + 1].metrics, AccountOf(turns[i]))
    ensures CountersMove(views[0].metrics, views[n].metrics, AccountInTurn(turns, n))
  {
    if n > 0 {
      CountersAlong(views, turns, n - 1);
      assert CountersMove(views[n - 1].metrics, views[n - 1 + 1].metrics, AccountOf(turns[n - 1]));
    }
  }

  /** Over every run counters and dead letters account for each attempt once, and each rejection for one publish. */
  lemma RunAccounts(views: seq<BusView>, ends: seq<BusView>, turns: seq<Turn>,
                    policy: OverflowPolicy, maxLetters: nat, n: nat)
    requires Run(views, ends, turns, policy, maxLetters) && n <= |turns|
    ensures CountersMove(views[0].metrics, views[n].metrics, AccountInTurn(turns, n))
  {
    forall i | 0 <= i < |turns|
      ensures CountersMove(views[i].metrics, views[i + 1].metrics, AccountOf(turns[i]))
    {
      MoveAccounts(views[i], ends[i], views[i + 1], policy, maxLetters, turns[i]);
    }
    CountersAlong(views, turns, n);
  }
}
