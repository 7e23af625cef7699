/** When a replay ends, and when it never does (crates/nova-event/src/bus.rs, `replay`). */
module ReplayTermination {
  import Sets
  import opened Outcomes
  import opened Topics
  import opened SubscriptionTrie
  import opened EventStore
  import opened Channels
  import opened Replay

  // ---- What fits ----

  /** How many more events a channel takes, as long as nobody receives any. */
  function Room(channels: Channels, id: nat): nat {
    if TrySend(channels, id) == Sent then channels[id].taken + channels[id].capacity - |channels[id].accepted| else 0
  }

  ghost predicate OwedThrough(q: Request, d: Delivery, id: nat) {
    Owed(q, d) && q.subs[d.sub].sender == id
  }

  /** The deliveries owed through one channel before the one at `(offset, sub)`. */
  ghost function OwedBefore(q: Request, id: nat, offset: nat, sub: nat): set<Delivery> {
    set k: nat, o: nat |
      k < |q.subs| && o < |q.log| && OwedThrough(q, Delivery(k, o), id) && Before(Delivery(k, o), offset, sub)
      :: Delivery(k, o)
  }

  /** A delivery owed that its channel has room for beside those owed through it before. */
  ghost predicate Fits(q: Request, d: Delivery) {
    Owed(q, d) && |OwedBefore(q, q.subs[d.sub].sender, d.offset, d.sub)| < Room(q.channels, q.subs[d.sub].sender)
  }

  /** Before the replay starts, each channel that is owed anything has room for all of it. */
  ghost predicate Roomy(q: Request) {
    forall d :: Owed(q, d) ==> Fits(q, d)
  }

  ghost function MadeTo(q: Request, sent: seq<Delivery>, id: nat): set<Delivery> {
    set d | d in Made(sent) && Through(q, d, id)
  }

  lemma MadeToOneMore(q: Request, sent: seq<Delivery>, d: Delivery, id: nat)
    ensures MadeTo(q, sent + [d], id) == if Through(q, d, id) then MadeTo(q, sent, id) + {d} else MadeTo(q, sent, id)
    ensures |SentTo(q, sent + [d], id)| == |SentTo(q, sent, id)| + if Through(q, d, id) then 1 else 0
  {
    MadeOneMore(sent, d);
    SentOneMore(q, sent, d, id);
  }

  ghost predicate NoRepeats(sent: seq<Delivery>) {
    forall i, j :: 0 <= i < j < |sent| ==> sent[i] != sent[j]
  }

  /** As many events went into a channel as deliveries were made through it. */
  lemma {:induction false} SentToCounts(q: Request, sent: seq<Delivery>, id: nat)
    requires NoRepeats(sent)
    ensures |SentTo(q, sent, id)| == |MadeTo(q, sent, id)|
    decreases |sent|
  {
    if sent != [] {
      var rest, d := sent[..|sent| - 1], sent[|sent| - 1];
      assert sent == rest + [d] && d !in rest;
      SentToCounts(q, rest, id);
      MadeToOneMore(q, rest, d, id);
      MadeIsSent(rest, d);
    }
  }

  lemma OrderedHasNoRepeats(q: Request, p: Progress)
    requires Ordered(q, p)
    ensures NoRepeats(p.sent)
  {
    forall i, j | 0 <= i < j < |p.sent| ensures p.sent[i] != p.sent[j] {
      NeverBack(q, p, i, j);
    }
  }

  lemma OwedBeforeAll(q: Request, id: nat, offset: nat, sub: nat, d: Delivery)
    ensures d in OwedBefore(q, id, offset, sub) <==> OwedThrough(q, d, id) && Before(d, offset, sub)
  {
    assert d == Delivery(d.sub, d.offset);
  }

  /** As many deliveries were made through a channel as it took events. */
  lemma MadeCounts(q: Request, p: Progress, offset: nat, sub: nat, id: nat)
    requires OfferedUpTo(q, p, offset, sub) && id in p.channels
    ensures id in q.channels && |p.channels[id].accepted| == |q.channels[id].accepted| + |MadeTo(q, p.sent, id)|
    ensures p.channels[id].(accepted := []) == q.channels[id].(accepted := [])
  {
    OrderedHasNoRepeats(q, p);
    SentToCounts(q, p.sent, id);
  }

  lemma MadeFits(q: Request, p: Progress, offset: nat, sub: nat, d: Delivery)
    requires OfferedUpTo(q, p, offset, sub) && d in Made(p.sent)
    ensures Fits(q, d)
  {
    var id := q.subs[d.sub].sender;
    var made, before := MadeTo(q, p.sent, id), OwedBefore(q, id, d.offset, d.sub);
    MadeCounts(q, p, offset, sub, id);
    OwedBeforeAll(q, id, d.offset, d.sub, d);
    forall e | e in before + {d} ensures e in made {
      OwedBeforeAll(q, id, d.offset, d.sub, e);
      assert SameChannel(q, d, e);
    }
    Sets.SubsetSize(before + {d}, made);
  }

  lemma RefusedDoesNotFit(q: Request, p: Progress, offset: nat, sub: nat, d: Delivery)
    requires OfferedUpTo(q, p, offset, sub) && d in p.refused
    ensures !Fits(q, d)
  {
    var id := q.subs[d.sub].sender;
    if TrySend(q.channels, id) == Sent {
      var made, before := MadeTo(q, p.sent, id), OwedBefore(q, id, d.offset, d.sub);
      MadeCounts(q, p, offset, sub, id);
      forall e | e in made ensures e in before {
        assert SameChannel(q, e, d) && Owed(q, e);
        OwedBeforeAll(q, id, d.offset, d.sub, e);
      }
      Sets.SubsetSize(made, before);
    }
  }

  /** What is delivered: of what is owed up to where the offers stand, exactly what fits. */
  lemma MadeIffFits(q: Request, p: Progress, offset: nat, sub: nat, d: Delivery)
    requires OfferedUpTo(q, p, offset, sub)
    ensures d in p.sent <==> Fits(q, d) && Before(d, offset, sub)
  {
    MadeIsSent(p.sent, d);
    if d in p.sent {
      MadeFits(q, p, offset, sub, d);
    } else if Owed(q, d) && Before(d, offset, sub) {
      RefusedDoesNotFit(q, p, offset, sub, d);
    }
  }

  /** A replay that ends has delivered exactly what fits before the first event past the target. */
  lemma DeliversWhatFits(q: Request, p: Progress, end: End, d: Delivery)
    requires EndsAt(q, p, end) && !end.Diverges?
    ensures d in p.sent <==> Fits(q, d) && d.offset < (if end.ReachedTarget? then end.at else |q.log|)
  {
    var from := Start(q, p.cursor);
    MadeIffFits(q, p, if end.ReachedTarget? then end.at else if from < |q.log| then |q.log| else from, 0, d);
  }

  /** With room for everything nothing is ever refused. */
  lemma NothingRefused(q: Request, p: Progress, offset: nat, sub: nat)
    requires OfferedUpTo(q, p, offset, sub) && Roomy(q)
    ensures p.refused == {}
  {
    if d :| d in p.refused {
      RefusedDoesNotFit(q, p, offset, sub, d);
      assert false;
    }
  }

  // ---- The exact condition ----

  /** No delivery that fits, and no event past the target, within a full page behind `c`. */
  ghost predicate Gap(q: Request, c: nat) {
    var from := Start(q, c);
    && from + PAGE_SIZE <= |q.log| && NonePast(q, Start(q, q.cursor), from + PAGE_SIZE)
    && forall d :: Fits(q, d) ==> !(from <= d.offset < from + PAGE_SIZE)
  }

  /** Where the cursor may come to stand: where it is now, or at a delivery that fits. */
  ghost predicate Stand(q: Request, c: nat) {
    c == q.cursor || exists d :: Fits(q, d) && d.offset == c
  }

  /** Behind a delivery that was not the last there is another one within a page. */
  lemma {:induction false} NextWithinPage(q: Request, p: Progress, i: nat) returns (j: nat)
    requires Ordered(q, p) && i < |p.sent| && p.sent[i].offset < p.cursor
    ensures j < |p.sent| && p.sent[i].offset < p.sent[j].offset < Start(q, p.sent[i].offset) + PAGE_SIZE
    decreases |p.sent| - i
  {
    j := i + 1;
    assert Before(p.sent[i], p.sent[j].offset, p.sent[j].sub);
    if p.sent[j].offset == p.sent[i].offset {
      j := NextWithinPage(q, p, j);
    }
  }

  /** Where the cursor stood before the end, a delivery followed within a page. */
  lemma FollowedWithinPage(q: Request, p: Progress, offset: nat, c: nat) returns (d: Delivery)
    requires OfferedUpTo(q, p, offset, 0) && Stand(q, c) && c < p.cursor < offset
    ensures d in p.sent && c < d.offset < Start(q, c) + PAGE_SIZE
  {
    var j := 0;
    if c != q.cursor {
      var e :| Fits(q, e) && e.offset == c;
      MadeIffFits(q, p, offset, 0, e);
      var i :| 0 <= i < |p.sent| && p.sent[i] == e;
      j := NextWithinPage(q, p, i);
    }
    d := p.sent[j];
  }

  lemma SentFits(q: Request, p: Progress, offset: nat, d: Delivery)
    requires OfferedUpTo(q, p, offset, 0) && d in p.sent
    ensures Fits(q, d) && q.first <= d.offset
  {
    MadeIffFits(q, p, offset, 0, d);
  }

  /** No gap lies between the start of a replay and its last delivery. */
  lemma NoGapPassed(q: Request, p: Progress, offset: nat, c: nat)
    requires OfferedUpTo(q, p, offset, 0) && Stand(q, c) && c < p.cursor < offset
    ensures !Gap(q, c)
  {
    var d := FollowedWithinPage(q, p, offset, c);
    SentFits(q, p, offset, d);
  }

  lemma NoneFitsWhereItDiverges(q: Request, p: Progress, d: Delivery)
    requires EndsAt(q, p, Diverges) && Start(q, p.cursor) <= d.offset < Start(q, p.cursor) + PAGE_SIZE
    ensures !Fits(q, d)
  {
    if Owed(q, d) {
      DivergesBehindRefusedPage(q, p, d);
      RefusedDoesNotFit(q, p, Start(q, p.cursor) + PAGE_SIZE, 0, d);
    }
  }

  lemma GapWhereItDiverges(q: Request, p: Progress)
    requires EndsAt(q, p, Diverges)
    ensures Stand(q, p.cursor) && Gap(q, p.cursor)
  {
    var from := Start(q, p.cursor);
    forall d: Delivery | from <= d.offset < from + PAGE_SIZE ensures !Fits(q, d) {
      NoneFitsWhereItDiverges(q, p, d);
    }
    if p.sent != [] {
      SentFits(q, p, from + PAGE_SIZE, p.sent[|p.sent| - 1]);
    }
  }

  lemma NoGapBeforeEnd(q: Request, p: Progress, end: End, c: nat)
    requires EndsAt(q, p, end) && !end.Diverges? && Stand(q, c)
    ensures !Gap(q, c)
  {
    if c < p.cursor {
      var from := Start(q, p.cursor);
      var at := if end.ReachedTarget? then end.at else if from < |q.log| then |q.log| else from;
      if p.sent != [] { MadeIsSent(p.sent, p.sent[|p.sent| - 1]); }
      NoGapPassed(q, p, at, c);
    }
  }

  /**
  Every request is replayed forever if and only if a full page without a delivery that fits, and with no event past the
  target up to its end, lies behind the cursor or behind a delivery that fits.
  */
  lemma EndsUnlessGap(q: Request)
    requires Numbered(q.log) && q.first <= |q.log|
    ensures RunsForever(q) <==> exists c :: Stand(q, c) && Gap(q, c)
  {
    var p, end := ReplayOutcome(q);
    if end.Diverges? {
      GapWhereItDiverges(q, p);
    } else {
      forall c: nat | Stand(q, c) ensures !Gap(q, c) {
        NoGapBeforeEnd(q, p, end, c);
      }
    }
  }

  /** With no room anywhere a replay ends only if the rest of the log, or what comes before the target, is short. */
  lemma WithoutRoom(q: Request)
    requires Numbered(q.log) && q.first <= |q.log| && forall id :: TrySend(q.channels, id) != Sent
    ensures RunsForever(q) <==> var from := Start(q, q.cursor);
                                from + PAGE_SIZE <= |q.log| && NonePast(q, from, from + PAGE_SIZE)
  {
    EndsUnlessGap(q);
    assert Stand(q, q.cursor);
  }

  /** Requests of any length that ask for none of the events: a thousand of them behind the cursor are too many. */
  lemma SomeReplayRunsForever(length: nat) returns (q: Request)
    ensures Numbered(q.log) && q.first <= |q.log| && Roomy(q) && q.target == None && q.cursor == 0
    ensures |q.log| == length && (RunsForever(q) <==> length > 1_000)
  {
    var log := seq(length, i requires 0 <= i < length =>
                     StoredEvent(i, i, ["order", "created"], i, None, []));
    var sub := Subscription(1, "audit", [Literal("user"), MultiWildcard], 0, true, 7);
    q := Request(log, 0, 0, None, [sub], (filter, payload) => true, map[7 := Channel([], 0, 16, true)]);
    assert !Matches(sub.topic, ["order", "created"]);
    assert forall i :: 0 <= i < |log| ==> log[i].eventType == ["order", "created"];
    EndsUnlessGap(q);
    assert Stand(q, 0);
  }
}
