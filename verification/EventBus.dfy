/** Publishing, subscribing and replaying (crates/nova-event/src/bus.rs). */
module EventBus {
  import opened Outcomes
  import opened Digests
  import opened Topics
  import opened SubscriptionTrie
  import opened EventStore
  import opened Channels
  import opened DeadLetters
  import Replay

  datatype OverflowPolicy = DropNewest | DropOldest | RejectPublisher | BlockPublisher

  datatype Fate = Delivered | Dropped | Rejected | DeadLettered

  datatype Attempt = Attempt(sub: Subscription, fate: Fate)

  /** What the bus cannot decide: content filters, and whether a blocked send ends with room or a lost receiver. */
  datatype Environment = Environment(accepts: (nat, Bytes) -> bool, unblocks: nat -> bool)

  predicate Eligible(sub: Subscription, event: Event, env: Environment) {
    sub.active && env.accepts(sub.filter, event.payload)
  }

  /** Dropping the oldest is announced but never done: both drop policies drop the event at hand. */
  function FateOf(policy: OverflowPolicy, channels: Channels, sub: Subscription, env: Environment): Fate {
    match TrySend(channels, sub.sender)
    case Sent => Delivered
    case Disconnected => DeadLettered
    case Full =>
      match policy
      case DropNewest => Dropped
      case DropOldest => Dropped
      case RejectPublisher => Rejected
      case BlockPublisher => if env.unblocks(sub.sender) then Delivered else Dropped
  }

  function ChannelsAfter(policy: OverflowPolicy, channels: Channels, sub: Subscription, event: Event, env: Environment)
    : Channels
  {
    match TrySend(channels, sub.sender)
    case Sent => AfterSend(channels, sub.sender, event)
    case Disconnected => channels
    case Full =>
      if !policy.BlockPublisher? then channels
      else if env.unblocks(sub.sender) then
        var channel := channels[sub.sender];
        AfterSend(channels[sub.sender := channel.(taken := channel.taken + 1)], sub.sender, event)
      else channels[sub.sender := channels[sub.sender].(connected := false)]
  }

  datatype Metrics = Metrics(published: nat, delivered: nat, dropped: nat, rejected: nat)

  datatype Fanout = Fanout(channels: Channels, attempts: seq<Attempt>, ok: bool)

  function FanOne(f: Fanout, policy: OverflowPolicy, sub: Subscription, event: Event, env: Environment): Fanout {
    if !Eligible(sub, event, env) then f
    else
      var fate := FateOf(policy, f.channels, sub, env);
      Fanout(ChannelsAfter(policy, f.channels, sub, event, env), f.attempts + [Attempt(sub, fate)], fate != Rejected)
  }

  /** The fan-out over the subscriptions a lookup found; a rejection ends it. */
  function FanAll(f: Fanout, policy: OverflowPolicy, subs: seq<Subscription>, event: Event, env: Environment): Fanout
    decreases |subs|
  {
    if subs == [] || !f.ok then f
    else FanAll(FanOne(f, policy, subs[0], event, env), policy, subs[1..], event, env)
  }

  // ---- Accounting ----

  ghost function CountFate(attempts: seq<Attempt>, fate: Fate): nat {
    if attempts == [] then 0
    else CountFate(attempts[..|attempts| - 1], fate) + (if attempts[|attempts| - 1].fate == fate then 1 else 0)
  }

  /** What one channel took from the attempts to deliver an event. */
  ghost function Received(attempts: seq<Attempt>, event: Event, id: nat): seq<Event> {
    if attempts == [] then []
    else
      var last := attempts[|attempts| - 1];
      Received(attempts[..|attempts| - 1], event, id)
      + (if last.fate == Delivered && last.sub.sender == id then [event] else [])
  }

  ghost function EligibleSubs(subs: seq<Subscription>, event: Event, env: Environment): seq<Subscription> {
    if subs == [] then []
    else (if Eligible(subs[0], event, env) then [subs[0]] else []) + EligibleSubs(subs[1..], event, env)
  }

  ghost function SubsOf(attempts: seq<Attempt>): seq<Subscription> {
    seq(|attempts|, i requires 0 <= i < |attempts| => attempts[i].sub)
  }

  function Letters(attempts: seq<Attempt>, event: Event): seq<DeadLetter> {
    if attempts == [] then []
    else
      var n := |attempts| - 1;
      Letters(attempts[..n], event)
      + (if attempts[n].fate == DeadLettered
         then [DeadLetter(event, attempts[n].sub.subscriber, event.timestamp)] else [])
  }

  /** Every attempt has exactly one fate. */
  lemma {:induction false} FatesPartitionAttempts(attempts: seq<Attempt>)
    ensures CountFate(attempts, Delivered) + CountFate(attempts, Dropped)
            + CountFate(attempts, Rejected) + CountFate(attempts, DeadLettered) == |attempts|
    decreases |attempts|
  {
    if attempts != [] {
      FatesPartitionAttempts(attempts[..|attempts| - 1]);
    }
  }

  /** Each lost channel, in order, leaves a dead letter with the event, the subscriber and the event's timestamp. */
  lemma {:induction false} LetterOfAttempt(attempts: seq<Attempt>, event: Event, i: nat)
    requires i < |attempts|
    ensures |Letters(attempts, event)| == CountFate(attempts, DeadLettered)
    ensures attempts[i].fate == DeadLettered ==>
              var place := CountFate(attempts[..i], DeadLettered);
              && place < |Letters(attempts, event)|
              && Letters(attempts, event)[place].event == event
              && Letters(attempts, event)[place].subscriber == attempts[i].sub.subscriber
              && Letters(attempts, event)[place].failedAt == event.timestamp
    decreases |attempts|
  {
    var n := |attempts| - 1;
    if i < n {
      LetterOfAttempt(attempts[..n], event, i);
      assert attempts[..n][..i] == attempts[..i];
    } else if n > 0 {
      LetterOfAttempt(attempts[..n], event, 0);
    }
  }

  /** What one more attempt adds to each account. */
  lemma OneMoreAttempt(attempts: seq<Attempt>, sub: Subscription, fate: Fate, event: Event)
    ensures var tried := attempts + [Attempt(sub, fate)];
            && (forall f :: CountFate(tried, f) == CountFate(attempts, f) + (if f == fate then 1 else 0))
            && (forall id :: Received(tried, event, id)
                             == Received(attempts, event, id)
                                + (if fate == Delivered && sub.sender == id then [event] else []))
            && SubsOf(tried) == SubsOf(attempts) + [sub]
            && Letters(tried, event)
               == if fate == DeadLettered
                  then Letters(attempts, event) + [DeadLetter(event, sub.subscriber, event.timestamp)]
                  else Letters(attempts, event)
  {
    assert (attempts + [Attempt(sub, fate)])[..|attempts|] == attempts;
  }

  /** An accepted fan-out attempted every eligible subscription once, in order; a rejected one the first of them. */
  lemma {:induction false} FanOutAttempts(f: Fanout, policy: OverflowPolicy, subs: seq<Subscription>, event: Event,
                                          env: Environment)
    requires f.ok
    ensures var g := FanAll(f, policy, subs, event, env);
            && SubsOf(g.attempts) <= SubsOf(f.attempts) + EligibleSubs(subs, event, env)
            && (g.ok ==> SubsOf(g.attempts) == SubsOf(f.attempts) + EligibleSubs(subs, event, env))
    decreases |subs|
  {
    if subs != [] {
      var h := FanOne(f, policy, subs[0], event, env);
      var eligible, rest := EligibleSubs(subs, event, env), EligibleSubs(subs[1..], event, env);
      if Eligible(subs[0], event, env) {
        OneMoreAttempt(f.attempts, subs[0], FateOf(policy, f.channels, subs[0], env), event);
        assert SubsOf(f.attempts) + eligible == SubsOf(h.attempts) + rest;
      } else {
        assert eligible == rest;
      }
      if h.ok {
        FanOutAttempts(h, policy, subs[1..], event, env);
      }
    }
  }

  /** No attempt was rejected, or only the last, by the rejecting policy. */
  ghost predicate RejectedAtMostLast(f: Fanout, policy: OverflowPolicy) {
    && CountFate(f.attempts, Rejected) == (if f.ok then 0 else 1)
    && (!f.ok ==> policy == RejectPublisher && f.attempts != [] && f.attempts[|f.attempts| - 1].fate == Rejected)
  }

  lemma OneRejects(f: Fanout, policy: OverflowPolicy, sub: Subscription, event: Event, env: Environment)
    requires f.ok && RejectedAtMostLast(f, policy)
    ensures RejectedAtMostLast(FanOne(f, policy, sub, event, env), policy)
  {
    OneMoreAttempt(f.attempts, sub, FateOf(policy, f.channels, sub, env), event);
  }

  /** Only the rejecting policy rejects, and the rejection is the last attempt. */
  lemma {:induction false} FanOutRejects(f: Fanout, policy: OverflowPolicy, subs: seq<Subscription>, event: Event,
                                         env: Environment)
    requires f.ok && RejectedAtMostLast(f, policy)
    ensures RejectedAtMostLast(FanAll(f, policy, subs, event, env), policy)
    decreases |subs|
  {
    if subs != [] {
      var h := FanOne(f, policy, subs[0], event, env);
      OneRejects(f, policy, subs[0], event, env);
      if h.ok {
        FanOutRejects(h, policy, subs[1..], event, env);
      }
    }
  }

  lemma OneChannel(policy: OverflowPolicy, channels: Channels, sub: Subscription, event: Event, env: Environment,
                   id: nat)
    requires id in channels
    ensures var after := ChannelsAfter(policy, channels, sub, event, env);
            && id in after
            && after[id].accepted == channels[id].accepted
               + (if FateOf(policy, channels, sub, env) == Delivered && sub.sender == id then [event] else [])
  {}

  /** Each channel grows at its end, by what it was sent, so accepted events stay in publish order. */
  lemma {:induction false} FanOutDelivers(f: Fanout, policy: OverflowPolicy, subs: seq<Subscription>, event: Event,
                                          env: Environment, id: nat, before: seq<Event>)
    requires id in f.channels && f.channels[id].accepted == before + Received(f.attempts, event, id)
    ensures var g := FanAll(f, policy, subs, event, env);
            id in g.channels && g.channels[id].accepted == before + Received(g.attempts, event, id)
    decreases |subs|
  {
    if subs != [] && f.ok {
      var h := FanOne(f, policy, subs[0], event, env);
      if Eligible(subs[0], event, env) {
        OneMoreAttempt(f.attempts, subs[0], FateOf(policy, f.channels, subs[0], env), event);
        OneChannel(policy, f.channels, subs[0], event, env, id);
      }
      FanOutDelivers(h, policy, subs[1..], event, env, id, before);
    }
  }

  /** Whatever the policy, no channel is filled beyond its capacity. */
  lemma {:induction false} FanOutRespectsCapacity(f: Fanout, policy: OverflowPolicy, subs: seq<Subscription>,
                                                  event: Event, env: Environment)
    requires WithinCapacity(f.channels)
    ensures WithinCapacity(FanAll(f, policy, subs, event, env).channels)
    decreases |subs|
  {
    if subs != [] && f.ok {
      FanOutRespectsCapacity(FanOne(f, policy, subs[0], event, env), policy, subs[1..], event, env);
    }
  }

  // ---- Fates, read off the channels ----

  /** What a channel, as it stands before an attempt, makes of it, and how it stands afterwards. */
  ghost predicate Treated(policy: OverflowPolicy, before: Channels, attempt: Attempt, after: Channels, event: Event,
                          env: Environment)
  {
    var id, fate := attempt.sub.sender, attempt.fate;
    if id !in before || !before[id].connected then fate == DeadLettered && after == before
    else
      var c := before[id];
      if |c.accepted| < c.taken + c.capacity
      then fate == Delivered && after == before[id := c.(accepted := c.accepted + [event])]
      else
        match policy
        case DropNewest => fate == Dropped && after == before
        case DropOldest => fate == Dropped && after == before
        case RejectPublisher => fate == Rejected && after == before
        case BlockPublisher =>
          if env.unblocks(id)
          then fate == Delivered && after == before[id := c.(taken := c.taken + 1, accepted := c.accepted + [event])]
          else fate == Dropped && after == before[id := c.(connected := false)]
  }

  /** `turns[k]` are the channels before attempt `k`. */
  ghost predicate AllTreated(policy: OverflowPolicy, turns: seq<Channels>, attempts: seq<Attempt>, event: Event,
                             env: Environment)
  {
    && |turns| == |attempts| + 1
    && forall k :: 0 <= k < |attempts| ==> Treated(policy, turns[k], attempts[k], turns[k + 1], event, env)
  }

  lemma OneTreated(policy: OverflowPolicy, channels: Channels, sub: Subscription, event: Event, env: Environment)
    ensures Treated(policy, channels, Attempt(sub, FateOf(policy, channels, sub, env)),
                    ChannelsAfter(policy, channels, sub, event, env), event, env)
  {}

  /** Every attempt of a fan-out ends as its channel at its turn and the policy say. */
  lemma {:induction false} FanOutTreats(f: Fanout, policy: OverflowPolicy, subs: seq<Subscription>, event: Event,
                                        env: Environment, before: seq<Channels>)
    returns (turns: seq<Channels>)
    requires AllTreated(policy, before, f.attempts, event, env) && before[|f.attempts|] == f.channels
    ensures var g := FanAll(f, policy, subs, event, env);
            && AllTreated(policy, turns, g.attempts, event, env) && before <= turns
            && turns[|g.attempts|] == g.channels
    decreases |subs|
  {
    turns := before;
    if subs != [] && f.ok {
      var h := FanOne(f, policy, subs[0], event, env);
      if Eligible(subs[0], event, env) {
        OneTreated(policy, f.channels, subs[0], event, env);
        turns := turns + [h.channels];
        assert forall k :: 0 <= k < |f.attempts| ==> h.attempts[k] == f.attempts[k];
      }
      turns := FanOutTreats(h, policy, subs[1..], event, env, turns);
    }
  }

  // ---- When a publisher is turned away ----

  /** How many of the subscriptions are to be sent the event through one channel. */
  ghost function SendsTo(subs: seq<Subscription>, event: Event, env: Environment, id: nat): nat {
    if subs == [] then 0
    else (if subs[0].active && env.accepts(subs[0].filter, event.payload) && subs[0].sender == id then 1 else 0)
         + SendsTo(subs[1..], event, env, id)
  }

  /** More is to be sent through a connected channel than it has room for. */
  ghost predicate Overruns(channels: Channels, subs: seq<Subscription>, event: Event, env: Environment, id: nat) {
    && id in channels && channels[id].connected && SendsTo(subs, event, env, id) > 0
    && |channels[id].accepted| + SendsTo(subs, event, env, id) > channels[id].taken + channels[id].capacity
  }

  ghost predicate TurnsAway(policy: OverflowPolicy, channels: Channels, subs: seq<Subscription>, event: Event,
                            env: Environment)
  {
    policy == RejectPublisher && exists id :: Overruns(channels, subs, event, env, id)
  }

  lemma OverrunsFromHere(channels: Channels, subs: seq<Subscription>, event: Event, env: Environment, after: Channels)
    requires subs != [] && Eligible(subs[0], event, env)
    requires var fate := FateOf(RejectPublisher, channels, subs[0], env);
             Treated(RejectPublisher, channels, Attempt(subs[0], fate), after, event, env)
    ensures FateOf(RejectPublisher, channels, subs[0], env) == Rejected
            ==> Overruns(channels, subs, event, env, subs[0].sender)
    ensures FateOf(RejectPublisher, channels, subs[0], env) != Rejected
            ==> forall id :: Overruns(channels, subs, event, env, id) <==> Overruns(after, subs[1..], event, env, id)
  {}

  /** The rejecting policy rejects exactly if a connected channel has less room than is to be sent through it. */
  lemma {:induction false} RejectsIff(f: Fanout, subs: seq<Subscription>, event: Event, env: Environment)
    requires f.ok
    ensures FanAll(f, RejectPublisher, subs, event, env).ok
            <==> forall id :: !Overruns(f.channels, subs, event, env, id)
    decreases |subs|
  {
    if subs != [] {
      var h := FanOne(f, RejectPublisher, subs[0], event, env);
      if Eligible(subs[0], event, env) {
        OneTreated(RejectPublisher, f.channels, subs[0], event, env);
        OverrunsFromHere(f.channels, subs, event, env, h.channels);
      } else {
        assert forall id ::
          Overruns(f.channels, subs, event, env, id) <==> Overruns(h.channels, subs[1..], event, env, id);
      }
      if h.ok {
        RejectsIff(h, subs[1..], event, env);
      }
    }
  }

  lemma {:induction false} FanAllInTwo(f: Fanout, policy: OverflowPolicy, a: seq<Subscription>, b: seq<Subscription>,
                                       event: Event, env: Environment)
    ensures FanAll(f, policy, a + b, event, env) == FanAll(FanAll(f, policy, a, event, env), policy, b, event, env)
    decreases |a|
  {
    if a == [] {
      assert a + b == b;
    } else if f.ok {
      assert (a + b)[0] == a[0] && (a + b)[1..] == a[1..] + b;
      FanAllInTwo(FanOne(f, policy, a[0], event, env), policy, a[1..], b, event, env);
    }
  }

  /** A rejected fan-out stops at the first subscription with which its channel is overrun; nothing beyond is tried. */
  lemma StopsAtFirst(before: Channels, subs: seq<Subscription>, event: Event, env: Environment) returns (k: nat)
    requires exists id :: Overruns(before, subs, event, env, id)
    ensures k < |subs| && (forall id :: !Overruns(before, subs[..k], event, env, id))
    ensures Overruns(before, subs[..k + 1], event, env, subs[k].sender)
    ensures var start := Fanout(before, [], true);
            && FanAll(start, RejectPublisher, subs, event, env)
               == FanAll(start, RejectPublisher, subs[..k + 1], event, env)
            && !FanAll(start, RejectPublisher, subs, event, env).ok
  {
    var start := Fanout(before, [], true);
    k := 0;
    RejectsIff(start, subs, event, env);
    assert subs[..|subs|] == subs;
    while FanAll(start, RejectPublisher, subs[..k + 1], event, env).ok
      invariant k < |subs| && FanAll(start, RejectPublisher, subs[..k], event, env).ok
      decreases |subs| - k
    {
      k := k + 1;
    }
    RejectsIff(start, subs[..k], event, env);
    RejectsIff(start, subs[..k + 1], event, env);
    assert subs == subs[..k + 1] + subs[k + 1..] && subs[..k + 1] == subs[..k] + [subs[k]];
    FanAllInTwo(start, RejectPublisher, subs[..k + 1], subs[k + 1..], event, env);
    var id :| Overruns(before, subs[..k + 1], event, env, id);
    assert !Overruns(before, subs[..k], event, env, id);
    SendsToInTwo(subs[..k], [subs[k]], event, env, id);
  }

  lemma {:induction false} SendsToInTwo(a: seq<Subscription>, b: seq<Subscription>, event: Event, env: Environment,
                                        id: nat)
    ensures SendsTo(a + b, event, env, id) == SendsTo(a, event, env, id) + SendsTo(b, event, env, id)
  {
    if a == [] {
      assert a + b == b;
    } else {
      assert (a + b)[0] == a[0] && (a + b)[1..] == a[1..] + b;
      SendsToInTwo(a[1..], b, event, env, id);
    }
  }

  /** The two drop policies cannot be told apart: neither ever takes an older event out. */
  lemma {:induction false} DropOldestIsDropNewest(f: Fanout, subs: seq<Subscription>, event: Event, env: Environment)
    ensures FanAll(f, DropOldest, subs, event, env) == FanAll(f, DropNewest, subs, event, env)
    decreases |subs|
  {
    if subs != [] && f.ok {
      assert FanOne(f, DropOldest, subs[0], event, env) == FanOne(f, DropNewest, subs[0], event, env);
      DropOldestIsDropNewest(FanOne(f, DropNewest, subs[0], event, env), subs[1..], event, env);
    }
  }

  /** A publisher that blocks loses nothing as long as every blocked send ends with room. */
  lemma {:induction false} BlockingLosesNothing(f: Fanout, subs: seq<Subscription>, event: Event, env: Environment)
    requires f.ok && CountFate(f.attempts, Dropped) == 0 && CountFate(f.attempts, Rejected) == 0
    requires forall id :: env.unblocks(id)
    ensures var g := FanAll(f, BlockPublisher, subs, event, env);
            g.ok && CountFate(g.attempts, Dropped) == 0 && CountFate(g.attempts, Rejected) == 0
    decreases |subs|
  {
    if subs != [] {
      if Eligible(subs[0], event, env) {
        OneMoreAttempt(f.attempts, subs[0], FateOf(BlockPublisher, f.channels, subs[0], env), event);
      }
      BlockingLosesNothing(FanOne(f, BlockPublisher, subs[0], event, env), subs[1..], event, env);
    }
  }

  /** The live subscriptions whose topic the recursive matcher accepts, each as often as it is live. */
  ghost predicate IsLookup(found: seq<Subscription>, live: multiset<Subscription>, eventType: seq<string>) {
    forall s :: multiset(found)[s] == if Matches(s.topic, eventType) then live[s] else 0
  }

  /** Every live topic is as `TopicPattern::new` makes them. */
  ghost predicate TopicsAsParsed(live: multiset<Subscription>) {
    forall s :: s in live ==> MultiOnlyLast(s.topic)
  }

  lemma RemovalKeepsTopics(before: multiset<Subscription>, id: nat, after: multiset<Subscription>)
    requires TopicsAsParsed(before) && OneRemoved(before, id, after)
    ensures TopicsAsParsed(after) && |after| == |before| - 1
  {}

  lemma SwitchKeepsTopics(before: multiset<Subscription>, id: nat, active: bool, after: multiset<Subscription>)
    requires TopicsAsParsed(before) && OneSwitched(before, id, active, after)
    ensures TopicsAsParsed(after) && |after| == |before|
  {}

  /** A fan-out over what a lookup finds among the live subscriptions. */
  ghost predicate FansOut(found: seq<Subscription>, live: multiset<Subscription>, policy: OverflowPolicy,
                          before: Channels, after: Channels, event: Event, env: Environment,
                          attempts: seq<Attempt>, ok: bool)
  {
    && IsLookup(found, live, event.eventType)
    && Fanout(after, attempts, ok) == FanAll(Fanout(before, [], true), policy, found, event, env)
  }

  /**
  Publish accounting. Unless the publisher was turned away, the attempted subscriptions are exactly the live, active
  ones whose topic matches and whose filter passes, each as often as it is live.
  */
  lemma AcceptedPublishReachesAll(found: seq<Subscription>, live: multiset<Subscription>, policy: OverflowPolicy,
                                  before: Channels, after: Channels, event: Event, env: Environment,
                                  attempts: seq<Attempt>, s: Subscription)
    requires FansOut(found, live, policy, before, after, event, env, attempts, true)
    ensures multiset(SubsOf(attempts))[s]
            == if Matches(s.topic, event.eventType) && s.active && env.accepts(s.filter, event.payload)
               then live[s] else 0
    ensures CountFate(attempts, Delivered) + CountFate(attempts, Dropped) + CountFate(attempts, DeadLettered)
            == |attempts|
  {
    var start := Fanout(before, [], true);
    FanOutAttempts(start, policy, found, event, env);
    FanOutRejects(start, policy, found, event, env);
    FatesPartitionAttempts(attempts);
    EligibleCounts(found, event, env, s);
    assert SubsOf(start.attempts) == [];
    assert [] + EligibleSubs(found, event, env) == EligibleSubs(found, event, env);
  }

  lemma {:induction false} EligibleCounts(subs: seq<Subscription>, event: Event, env: Environment, s: Subscription)
    ensures multiset(EligibleSubs(subs, event, env))[s] == if Eligible(s, event, env) then multiset(subs)[s] else 0
  {
    if subs != [] {
      EligibleCounts(subs[1..], event, env, s);
      assert subs == [subs[0]] + subs[1..];
    }
  }

  /** What the counters show after the attempts. */
  ghost function Tallied(m: Metrics, attempts: seq<Attempt>): Metrics {
    m.(delivered := m.delivered + CountFate(attempts, Delivered),
       dropped := m.dropped + CountFate(attempts, Dropped),
       rejected := m.rejected + CountFate(attempts, Rejected))
  }

  function Counted(m: Metrics, fate: Fate): Metrics {
    match fate
    case Delivered => m.(delivered := m.delivered + 1)
    case Dropped => m.(dropped := m.dropped + 1)
    case Rejected => m.(rejected := m.rejected + 1)
    case DeadLettered => m
  }

  lemma OneMoreAccounted(m: Metrics, letters: seq<DeadLetter>, attempts: seq<Attempt>,
                         sub: Subscription, fate: Fate, event: Event, maxLetters: nat)
    ensures var tried := attempts + [Attempt(sub, fate)];
            && Tallied(m, tried) == Counted(Tallied(m, attempts), fate)
            && PushedAll(letters, Letters(tried, event), maxLetters)
               == if fate == DeadLettered
                  then Pushed(PushedAll(letters, Letters(attempts, event), maxLetters),
                              DeadLetter(event, sub.subscriber, event.timestamp), maxLetters)
                  else PushedAll(letters, Letters(attempts, event), maxLetters)
  {
    OneMoreAttempt(attempts, sub, fate, event);
    PushedAllSnoc(letters, Letters(attempts, event), DeadLetter(event, sub.subscriber, event.timestamp), maxLetters);
  }

  /** All of the bus that publishing changes. */
  datatype BusView = BusView(channels: Channels, metrics: Metrics, letters: seq<DeadLetter>, log: seq<StoredEvent>)

  /** The fan-out of one publish that was let in, before a persistent event is stored. */
  ghost predicate DispatchedAs(before: BusView, after: BusView, policy: OverflowPolicy, maxLetters: nat,
                               live: multiset<Subscription>, found: seq<Subscription>, event: Event, env: Environment,
                               attempts: seq<Attempt>, ok: bool)
  {
    && FansOut(found, live, policy, before.channels, after.channels, event, env, attempts, ok)
    && after.metrics == Tallied(before.metrics.(published := before.metrics.published + 1), attempts)
    && after.letters == PushedAll(before.letters, Letters(attempts, event), maxLetters)
    && after.log == before.log
  }

  /** One publish that was let in; `ok` says whether it returned an id, and only then is a persistent event stored. */
  ghost predicate PublishedAs(before: BusView, after: BusView, policy: OverflowPolicy, maxLetters: nat,
                              live: multiset<Subscription>, found: seq<Subscription>, event: Event, env: Environment,
                              attempts: seq<Attempt>, ok: bool)
  {
    && DispatchedAs(before, after.(log := before.log), policy, maxLetters, live, found, event, env, attempts, ok)
    && after.log == before.log + (if ok && event.persistent then [Stored(|before.log|, event)] else [])
  }

  /** A publish that was let in is turned away exactly if the policy rejects and a channel is overrun. */
  lemma PublishIsFullIff(before: BusView, after: BusView, policy: OverflowPolicy, maxLetters: nat,
                         live: multiset<Subscription>, found: seq<Subscription>, event: Event, env: Environment,
                         attempts: seq<Attempt>, ok: bool)
    requires PublishedAs(before, after, policy, maxLetters, live, found, event, env, attempts, ok)
    ensures !ok <==> TurnsAway(policy, before.channels, found, event, env)
  {
    var start := Fanout(before.channels, [], true);
    FanOutRejects(start, policy, found, event, env);
    RejectsIff(start, found, event, env);
  }

  /**
  What `requeue` takes out once publishing has gone through: the entry it published if and only if the dead letters of
  that publish fit in beside those there were, and else the one as many places further on as were pushed out.
  */
  lemma RequeueTakesOut(before: BusView, after: BusView, policy: OverflowPolicy, maxLetters: nat,
                        live: multiset<Subscription>, found: seq<Subscription>, event: Event, env: Environment,
                        attempts: seq<Attempt>, ok: bool, index: nat)
    requires PublishedAs(before, after, policy, maxLetters, live, found, event, env, attempts, ok)
    requires |before.letters| <= Effective(maxLetters) && index < |before.letters|
    ensures var all := before.letters + Letters(attempts, event);
            var place := index + Evicted(before.letters, Letters(attempts, event), maxLetters);
            && index < |after.letters| && place < |all| && after.letters[index] == all[place]
            && WithoutAt(after.letters, index) == KeptWithout(all, place - index, place)
            && (place == index <==> |all| <= Effective(maxLetters))
  {
    RequeueHitsIffNoneEvicted(before.letters, Letters(attempts, event), maxLetters, index);
  }

  // ---- The bus ----

  class Bus {
    const trie: Trie
    const store: EventStore
    const deadLetters: DeadLetterQueue
    const policy: OverflowPolicy
    const maxPayload: nat
    var channels: Channels
    var metrics: Metrics
    var subscriberCount: nat

    ghost predicate Valid()
      reads this, trie, trie.repr, store, deadLetters
    {
      && trie.Valid() && store.Valid() && deadLetters.Valid()
      && subscriberCount == |trie.live| && TopicsAsParsed(trie.live)
    }

    constructor (policy: OverflowPolicy, maxPayload: nat, maxEntries: nat)
      ensures Valid() && trie.live == multiset{} && store.log == [] && channels == map[]
      ensures this.policy == policy && this.maxPayload == maxPayload && metrics == Metrics(0, 0, 0, 0)
      ensures store.maxEntries == maxEntries && deadLetters.entries == [] && deadLetters.maxSize == 100_000
    {
      trie := new Trie();
      store := new EventStore(maxEntries);
      deadLetters := new DeadLetterQueue(100_000);
      this.policy, this.maxPayload := policy, maxPayload;
      channels := map[];
      metrics, subscriberCount := Metrics(0, 0, 0, 0), 0;
    }

    /** The checks of `publish`, before an id is drawn. */
    function Refusal(draft: Event): Option<Error> {
      if |draft.eventType| < 2 then Some(InvalidEventType)
      else if |draft.payload| > maxPayload then Some(PayloadTooLarge)
      else None
    }

    ghost function View(): BusView
      reads this, store, deadLetters
    {
      BusView(channels, metrics, deadLetters.entries, store.log)
    }

    /** `publish`; the fresh id and its timestamp, and what the environment decides, are parameters. */
    method Publish(draft: Event, id: nat, timestamp: nat, env: Environment)
      returns (r: Result<nat>, ghost attempts: seq<Attempt>, ghost found: seq<Subscription>)
      requires Valid()
      modifies this`channels, this`metrics, store, deadLetters
      ensures Valid()
      ensures match Refusal(draft)
              case Some(error) => r == Err(error) && View() == old(View())
              case None =>
                && r == (if r.Ok? then Ok(id) else Err(BusFull))
                && PublishedAs(old(View()), View(), policy, deadLetters.maxSize, trie.live, found,
                               draft.(id := id, timestamp := timestamp), env, attempts, r.Ok?)
      ensures r == Err(InvalidEventType) <==> |draft.eventType| < 2
      ensures r == Err(PayloadTooLarge) <==> |draft.eventType| >= 2 && |draft.payload| > maxPayload
      ensures r == Err(BusFull) <==>
              && |draft.eventType| >= 2 && |draft.payload| <= maxPayload
              && TurnsAway(policy, old(channels), found, draft.(id := id, timestamp := timestamp), env)
    {
      attempts, found := [], [];
      if |draft.eventType| < 2 {
        return Err(InvalidEventType), attempts, found;
      }
      if |draft.payload| > maxPayload {
        return Err(PayloadTooLarge), attempts, found;
      }
      var ok;
      ok, attempts, found := PublishLetIn(draft.(id := id, timestamp := timestamp), env);
      r := if ok then Ok(id) else Err(BusFull);
    }

    /** `requeue` of the bus's own dead letters: publishes the entry at `index`, then takes out whatever sits there. */
    method Requeue(index: nat, id: nat, timestamp: nat, env: Environment)
      returns (r: Result<()>, ghost attempts: seq<Attempt>, ghost found: seq<Subscription>, ghost published: BusView)
      requires Valid()
      modifies this`channels, this`metrics, store, deadLetters
      ensures Valid()
      ensures index >= |old(deadLetters.entries)| ==> r == Err(SubscriberNotFound) && View() == old(View())
      ensures index < |old(deadLetters.entries)| ==>
                var draft := old(deadLetters.entries)[index].event;
                match Refusal(draft)
                case Some(error) => r == Err(error) && View() == old(View())
                case None =>
                  && r == (if r.Ok? then Ok(()) else Err(BusFull))
                  && PublishedAs(old(View()), published, policy, deadLetters.maxSize, trie.live, found,
                                 draft.(id := id, timestamp := timestamp), env, attempts, r.Ok?)
                  && View() == if r.Ok? then published.(letters := WithoutAt(published.letters, index)) else published
    {
      attempts, found, published := [], [], View();
      if index >= |deadLetters.entries| {
        return Err(SubscriberNotFound), attempts, found, published;
      }
      var outcome;
      outcome, attempts, found := Publish(deadLetters.entries[index].event, id, timestamp, env);
      published := View();
      if outcome.Err? {
        return Err(outcome.error), attempts, found, published;
      }
      deadLetters.RemoveAt(index);
      r := Ok(());
    }

    /** `publish` after the checks. */
    method PublishLetIn(event: Event, env: Environment)
      returns (ok: bool, ghost attempts: seq<Attempt>, ghost found: seq<Subscription>)
      requires Valid()
      modifies this`channels, this`metrics, store, deadLetters
      ensures Valid()
      ensures PublishedAs(old(View()), View(), policy, deadLetters.maxSize, trie.live, found, event, env, attempts, ok)
      ensures !ok <==> TurnsAway(policy, old(channels), found, event, env)
    {
      ghost var before := View();
      ok, attempts, found := Dispatch(event, env);
      ghost var dispatched := View();
      if ok {
        Persist(event);
      }
      assert View().(log := before.log) == dispatched;
      PublishIsFullIff(before, View(), policy, deadLetters.maxSize, trie.live, found, event, env, attempts, ok);
    }

    /** Counts the event and hands it to the subscriptions the trie finds. */
    method Dispatch(event: Event, env: Environment)
      returns (ok: bool, ghost attempts: seq<Attempt>, ghost found: seq<Subscription>)
      requires trie.Valid() && TopicsAsParsed(trie.live) && deadLetters.Valid()
      modifies this`channels, this`metrics, deadLetters
      ensures deadLetters.Valid()
      ensures DispatchedAs(old(View()), View(), policy, deadLetters.maxSize, trie.live, found, event, env, attempts, ok)
    {
      var subscriptions := Matching(event.eventType);
      found := subscriptions;
      metrics := metrics.(published := metrics.published + 1);
      ok, attempts := FanOut(subscriptions, event, env);
    }

    method Matching(eventType: seq<string>) returns (found: seq<Subscription>)
      requires trie.Valid() && TopicsAsParsed(trie.live)
      ensures IsLookup(found, trie.live, eventType)
    {
      found := trie.Lookup(eventType);
      forall s ensures multiset(found)[s] == if Matches(s.topic, eventType) then trie.live[s] else 0 {
        if s in trie.live { ReachesIsMatches(s.topic, eventType); }
      }
    }

    method Persist(event: Event)
      requires store.Valid()
      modifies store
      ensures store.Valid()
      ensures store.log == old(store.log) + (if event.persistent then [Stored(|old(store.log)|, event)] else [])
    {
      if event.persistent {
        var offset := store.Append(event);
      }
    }

    /** The delivery loop of `publish`. */
    method FanOut(subs: seq<Subscription>, event: Event, env: Environment)
      returns (ok: bool, ghost attempts: seq<Attempt>)
      requires deadLetters.Valid()
      modifies this`channels, this`metrics, deadLetters
      ensures deadLetters.Valid()
      ensures Fanout(channels, attempts, ok) == FanAll(Fanout(old(channels), [], true), policy, subs, event, env)
      ensures metrics == Tallied(old(metrics), attempts)
      ensures deadLetters.entries == PushedAll(old(deadLetters.entries), Letters(attempts, event), deadLetters.maxSize)
    {
      ok, attempts := true, [];
      ghost var start, m, letters := Fanout(channels, [], true), metrics, deadLetters.entries;
      var i := 0;
      while i < |subs| && ok
        invariant i <= |subs| && deadLetters.Valid()
        invariant FanAll(Fanout(channels, attempts, ok), policy, subs[i..], event, env)
                  == FanAll(start, policy, subs, event, env)
        invariant metrics == Tallied(m, attempts)
        invariant deadLetters.entries == PushedAll(letters, Letters(attempts, event), deadLetters.maxSize)
      {
        assert subs[i..][1..] == subs[i + 1..];
        ok, attempts := DeliverIfEligible(subs[i], event, env, attempts, m, letters);
        i := i + 1;
      }
    }

    /** The body of the delivery loop. */
    method DeliverIfEligible(sub: Subscription, event: Event, env: Environment, ghost attempts: seq<Attempt>,
                             ghost m: Metrics, ghost letters: seq<DeadLetter>)
      returns (ok: bool, ghost tried: seq<Attempt>)
      requires deadLetters.Valid() && metrics == Tallied(m, attempts)
      requires deadLetters.entries == PushedAll(letters, Letters(attempts, event), deadLetters.maxSize)
      modifies this`channels, this`metrics, deadLetters
      ensures deadLetters.Valid() && metrics == Tallied(m, tried)
      ensures deadLetters.entries == PushedAll(letters, Letters(tried, event), deadLetters.maxSize)
      ensures Fanout(channels, tried, ok) == FanOne(Fanout(old(channels), attempts, true), policy, sub, event, env)
    {
      if !Eligible(sub, event, env) {
        return true, attempts;
      }
      ghost var fate := FateOf(policy, channels, sub, env);
      OneMoreAccounted(m, letters, attempts, sub, fate, event, deadLetters.maxSize);
      ok := Deliver(sub, event, env);
      tried := attempts + [Attempt(sub, fate)];
    }

    /** One `try_send`, and what the overflow policy makes of a full channel. */
    method Deliver(sub: Subscription, event: Event, env: Environment) returns (ok: bool)
      requires deadLetters.Valid()
      modifies this`channels, this`metrics, deadLetters
      ensures deadLetters.Valid()
      ensures channels == ChannelsAfter(policy, old(channels), sub, event, env)
      ensures var fate := FateOf(policy, old(channels), sub, env);
              && (ok <==> fate != Rejected)
              && metrics == Counted(old(metrics), fate)
              && deadLetters.entries ==
                 if fate == DeadLettered
                 then Pushed(old(deadLetters.entries), DeadLetter(event, sub.subscriber, event.timestamp),
                             deadLetters.maxSize)
                 else old(deadLetters.entries)
    {
      ok := true;
      match TrySend(channels, sub.sender) {
        case Sent =>
          channels := AfterSend(channels, sub.sender, event);
          metrics := metrics.(delivered := metrics.delivered + 1);
        case Full =>
          match policy {
            case DropNewest => metrics := metrics.(dropped := metrics.dropped + 1);
            case DropOldest => metrics := metrics.(dropped := metrics.dropped + 1);
            case RejectPublisher =>
              metrics := metrics.(rejected := metrics.rejected + 1);
              ok := false;
            case BlockPublisher =>
              var channel := channels[sub.sender];
              if env.unblocks(sub.sender) {
                channels := AfterSend(channels[sub.sender := channel.(taken := channel.taken + 1)], sub.sender, event);
                metrics := metrics.(delivered := metrics.delivered + 1);
              } else {
                channels := channels[sub.sender := channel.(connected := false)];
                metrics := metrics.(dropped := metrics.dropped + 1);
              }
          }
        case Disconnected =>
          deadLetters.Push(DeadLetter(event, sub.subscriber, event.timestamp));
      }
    }

    /** The topic of a subscription is a parsed pattern. */
    method Subscribe(sub: Subscription)
      requires Valid() && MultiOnlyLast(sub.topic)
      modifies this`subscriberCount, trie`nodes, trie`repr, trie`live, trie.repr
      ensures Valid()
      ensures trie.live == old(trie.live) + multiset{sub}
    {
      trie.Insert(sub);
      subscriberCount := subscriberCount + 1;
    }

    method Unsubscribe(id: nat) returns (removed: bool)
      requires Valid()
      modifies this`subscriberCount, trie`live, trie.repr`subscriptions
      ensures Valid()
      ensures if removed then OneRemoved(old(trie.live), id, trie.live)
              else trie.live == old(trie.live) && NoneHasId(trie.live, id)
    {
      ghost var before := trie.live;
      removed := trie.Remove(id);
      if removed {
        RemovalKeepsTopics(before, id, trie.live);
        subscriberCount := subscriberCount - 1;
      }
    }

    method PauseSubscriber(id: nat) returns (r: Result<()>)
      requires Valid()
      modifies trie`live, trie.repr`subscriptions
      ensures Valid()
      ensures if r.Ok? then OneSwitched(old(trie.live), id, false, trie.live)
              else r == Err(SubscriberNotFound) && trie.live == old(trie.live) && NoneHasId(trie.live, id)
    {
      ghost var before := trie.live;
      var found := trie.SetActive(id, false);
      if found { SwitchKeepsTopics(before, id, false, trie.live); }
      r := if found then Ok(()) else Err(SubscriberNotFound);
    }

    /** Unlike pausing, resuming an unknown subscription is no error. */
    method ResumeSubscriber(id: nat) returns (r: Result<()>)
      requires Valid()
      modifies trie`live, trie.repr`subscriptions
      ensures Valid() && r == Ok(())
      ensures OneSwitched(old(trie.live), id, true, trie.live)
              || (trie.live == old(trie.live) && NoneHasId(trie.live, id))
    {
      ghost var before := trie.live;
      var found := trie.SetActive(id, true);
      if found { SwitchKeepsTopics(before, id, true, trie.live); }
      r := Ok(());
    }

    method SubscriptionsOf(subscriber: string) returns (subs: seq<Subscription>)
      requires trie.Valid()
      ensures IsSelection(subs, trie.live, subscriber)
    {
      var all := trie.AllSubscriptions();
      subs := OfSubscriber(all, subscriber);
    }

    /** What a replay to these subscriptions starts from. */
    ghost function RequestFor(subs: seq<Subscription>, cursor: nat, target: Option<nat>, env: Environment)
      : Replay.Request
      reads this`channels, store
    {
      Replay.Request(store.log, FirstRetained(|store.log|, store.maxEntries), cursor, target, subs, env.accepts,
                     channels)
    }

    /** `replay`: sends a subscriber's subscriptions what the log retains beyond the cursor, unless it runs forever. */
    method ReplayTo(subscriber: string, cursor: nat, target: Option<nat>, env: Environment)
      returns (r: Result<(nat, Replay.End)>, ghost q: Replay.Request, ghost p: Replay.Progress)
      requires Valid()
      modifies this`channels, this`metrics
      ensures Valid()
      ensures q == old(RequestFor(q.subs, cursor, target, env)) && IsSelection(q.subs, trie.live, subscriber)
      ensures r.Err? <==> q.subs == []
      ensures r.Err? ==> r == Err(SubscriberNotFound) && channels == old(channels) && metrics == old(metrics)
      ensures r.Ok? ==>
                && Replay.EndsAt(q, p, r.value.1) && (r.value.1.Diverges? <==> Replay.RunsForever(q))
                && r.value.0 == p.cursor && channels == p.channels
                && metrics == old(metrics).(delivered := old(metrics).delivered + |p.sent|)
    {
      var subs := SubscriptionsOf(subscriber);
      q := RequestFor(subs, cursor, target, env);
      if subs == [] {
        p := Replay.Progress(channels, [], {}, cursor);
        return Err(SubscriberNotFound), q, p;
      }
      var end;
      p, end := Resend(subs, cursor, target, env, q);
      r := Ok(end);
    }

    method Resend(subs: seq<Subscription>, cursor: nat, target: Option<nat>, env: Environment, ghost q: Replay.Request)
      returns (ghost p: Replay.Progress, r: (nat, Replay.End))
      requires store.Valid() && q == RequestFor(subs, cursor, target, env)
      modifies this`channels, this`metrics
      ensures Replay.EndsAt(q, p, r.1) && (r.1.Diverges? <==> Replay.RunsForever(q))
      ensures r.0 == p.cursor && channels == p.channels
      ensures metrics == old(metrics).(delivered := old(metrics).delivered + |p.sent|)
    {
      var progress, end := Replay.ReplayAll(store, q, cursor, target, subs, env.accepts, channels);
      channels := progress.channels;
      metrics := metrics.(delivered := metrics.delivered + |progress.sent|);
      p, r := progress, (progress.cursor, end);
    }
  }

  /** The subscriptions of one subscriber, each as often as it is live. */
  ghost predicate IsSelection(subs: seq<Subscription>, live: multiset<Subscription>, subscriber: string) {
    forall s :: multiset(subs)[s] == if s.subscriber == subscriber then live[s] else 0
  }

  method OfSubscriber(all: seq<Subscription>, subscriber: string) returns (subs: seq<Subscription>)
    ensures IsSelection(subs, multiset(all), subscriber)
  {
    subs := [];
    for i := 0 to |all|
      invariant IsSelection(subs, multiset(all[..i]), subscriber)
    {
      assert all[..i + 1] == all[..i] + [all[i]];
      if all[i].subscriber == subscriber {
        subs := subs + [all[i]];
      }
    }
    assert all[..|all|] == all;
  }
}
