/** The four-level aging operation queue (crates/nova-executor/src/operation_queue.rs, types.rs). */
module OperationQueue {
  import opened Outcomes

  datatype Priority = Critical | High | Normal | Background

  /** What identifies a queued operation; it never changes. Times are nanoseconds. */
  datatype Ticket = Ticket(id: nat, submittedAt: int, deadline: int)

  /** `age` counts promotions. */
  datatype Operation = Operation(ticket: Ticket, priority: Priority, age: nat)

  /** The four deques, front first. */
  datatype Levels = Levels(
    critical: seq<Operation>,
    high: seq<Operation>,
    normal: seq<Operation>,
    background: seq<Operation>)
  {
    function At(p: Priority): seq<Operation> {
      match p
      case Critical => critical
      case High => high
      case Normal => normal
      case Background => background
    }

    function With(p: Priority, q: seq<Operation>): Levels {
      match p
      case Critical => this.(critical := q)
      case High => this.(high := q)
      case Normal => this.(normal := q)
      case Background => this.(background := q)
    }

    function Depth(): nat {
      |critical| + |high| + |normal| + |background|
    }

    /** The best level that holds anything. */
    function Best(): Priority {
      if critical != [] then Critical else if high != [] then High else if normal != [] then Normal else Background
    }

    ghost predicate AtOwnLevel() {
      AllAt(critical, Critical) && AllAt(high, High) && AllAt(normal, Normal) && AllAt(background, Background)
    }

    /** How often a ticket is queued. */
    ghost function Holds(t: Ticket): nat {
      Count(critical, t) + Count(high, t) + Count(normal, t) + Count(background, t)
    }
  }

  const EMPTY: Levels := Levels([], [], [], [])

  ghost predicate AllAt(q: seq<Operation>, p: Priority) {
    forall i :: 0 <= i < |q| ==> q[i].priority == p
  }

  ghost function Count(q: seq<Operation>, t: Ticket): nat {
    if q == [] then 0 else (if q[0].ticket == t then 1 else 0) + Count(q[1..], t)
  }

  lemma {:induction false} CountConcat(a: seq<Operation>, b: seq<Operation>, t: Ticket)
    ensures Count(a + b, t) == Count(a, t) + Count(b, t)
    decreases |a|
  {
    if a == [] {
      assert a + b == b;
    } else {
      CountConcat(a[1..], b, t);
      assert (a + b)[0] == a[0] && (a + b)[1..] == a[1..] + b;
    }
  }

  // ---- Priorities ----

  const MILLISECOND: nat := 1_000_000

  function MaxWait(p: Priority): nat {
    match p
    case Critical => 100 * MILLISECOND
    case High => 500 * MILLISECOND
    case Normal => 2_000 * MILLISECOND
    case Background => 10_000 * MILLISECOND
  }

  /** The order in which pops serve the levels. */
  function RankOf(p: Priority): nat {
    match p
    case Critical => 0
    case High => 1
    case Normal => 2
    case Background => 3
  }

  /** Nothing ages into the critical level. */
  function AgeUp(p: Priority): Option<Priority> {
    match p
    case Background => Some(Normal)
    case Normal => Some(High)
    case _ => None
  }

  /** The difference of two instants saturates at zero. */
  function Wait(op: Operation, now: int): nat {
    if now < op.ticket.submittedAt then 0 else now - op.ticket.submittedAt
  }

  predicate Due(op: Operation, now: int) {
    Wait(op, now) >= MaxWait(op.priority) && op.age < 3
  }

  function Promoted(op: Operation): Operation {
    match AgeUp(op.priority)
    case Some(p) => op.(age := op.age + 1, priority := p)
    case None => op.(age := op.age + 1)
  }

  // ---- Aging, as a function ----

  function Kept(q: seq<Operation>, now: int): seq<Operation> {
    if q == [] then []
    else if Due(q[0], now) then Kept(q[1..], now)
    else [q[0]] + Kept(q[1..], now)
  }

  /** The due operations after promotion, last one first: the code collects them from the back. */
  function Risen(q: seq<Operation>, now: int): seq<Operation> {
    if q == [] then []
    else if Due(q[0], now) then Risen(q[1..], now) + [Promoted(q[0])]
    else Risen(q[1..], now)
  }

  /** Background rises to normal, normal to high; high goes to its own back. */
  function AgedFrom(qs: Levels, p: Priority, now: int): Levels {
    match p
    case Background => qs.(background := Kept(qs.background, now), normal := qs.normal + Risen(qs.background, now))
    case Normal => qs.(normal := Kept(qs.normal, now), high := qs.high + Risen(qs.normal, now))
    case High => qs.(high := Kept(qs.high, now) + Risen(qs.high, now))
    case Critical => qs
  }

  function Aged(qs: Levels, now: int): Levels {
    AgedFrom(AgedFrom(AgedFrom(qs, Background, now), Normal, now), High, now)
  }

  // ---- The other operations, as functions ----

  function Capacity(p: Priority): nat {
    match p
    case Critical => 64
    case High => 128
    case Normal => 512
    case Background => 320
  }

  predicate Accepts(qs: Levels, capacity: nat, op: Operation) {
    qs.Depth() < capacity && |qs.At(op.priority)| < Capacity(op.priority)
  }

  function Pushed(qs: Levels, op: Operation): Levels {
    qs.With(op.priority, qs.At(op.priority) + [op])
  }

  /** The operation a pop returns and what stays queued. */
  function Popped(qs: Levels, now: int): (Operation, Levels)
    requires Aged(qs, now).Depth() > 0
  {
    var aged := Aged(qs, now);
    var p := aged.Best();
    (aged.At(p)[0], aged.With(p, aged.At(p)[1..]))
  }

  /** What stays when everything with a deadline up to `deadline` is drained. */
  function Later(q: seq<Operation>, deadline: int): seq<Operation> {
    if q == [] then []
    else if q[0].ticket.deadline <= deadline then Later(q[1..], deadline)
    else [q[0]] + Later(q[1..], deadline)
  }

  function Expired(q: seq<Operation>, deadline: int): seq<Operation> {
    if q == [] then []
    else if q[0].ticket.deadline <= deadline then Expired(q[1..], deadline) + [q[0]]
    else Expired(q[1..], deadline)
  }

  function Drained(qs: Levels, deadline: int): Levels {
    Levels(Later(qs.critical, deadline), Later(qs.high, deadline),
           Later(qs.normal, deadline), Later(qs.background, deadline))
  }

  // ---- Conservation ----

  lemma {:induction false} AgingKeepsCount(q: seq<Operation>, now: int, t: Ticket)
    ensures Count(Kept(q, now), t) + Count(Risen(q, now), t) == Count(q, t)
    decreases |q|
  {
    if q != [] {
      AgingKeepsCount(q[1..], now, t);
      if Due(q[0], now) {
        CountConcat(Risen(q[1..], now), [Promoted(q[0])], t);
      } else {
        CountConcat([q[0]], Kept(q[1..], now), t);
      }
    }
  }

  lemma {:induction false} AgingKeepsLength(q: seq<Operation>, now: int)
    ensures |Kept(q, now)| + |Risen(q, now)| == |q|
    decreases |q|
  {
    if q != [] {
      AgingKeepsLength(q[1..], now);
    }
  }

  lemma {:induction false} AgingPlaces(q: seq<Operation>, now: int, p: Priority)
    requires AllAt(q, p)
    ensures AllAt(Kept(q, now), p)
    ensures AllAt(Risen(q, now), match AgeUp(p) case Some(up) => up case None => p)
    decreases |q|
  {
    if q != [] {
      AgingPlaces(q[1..], now, p);
    }
  }

  /** Aging loses, doubles and misplaces nothing, and leaves the critical level as it is. */
  lemma AgedFromKeeps(qs: Levels, p: Priority, now: int)
    ensures var aged := AgedFrom(qs, p, now);
            && aged.Depth() == qs.Depth() && aged.critical == qs.critical
            && (qs.AtOwnLevel() ==> aged.AtOwnLevel())
            && forall t :: aged.Holds(t) == qs.Holds(t)
  {
    var q := qs.At(p);
    AgingKeepsLength(q, now);
    if qs.AtOwnLevel() {
      AgingPlaces(q, now, p);
    }
    forall t ensures AgedFrom(qs, p, now).Holds(t) == qs.Holds(t) {
      AgingKeepsCount(q, now, t);
      CountConcat(Kept(q, now), Risen(q, now), t);
      CountConcat(qs.normal, Risen(q, now), t);
      CountConcat(qs.high, Risen(q, now), t);
    }
  }

  lemma AgedKeeps(qs: Levels, now: int)
    ensures var aged := Aged(qs, now);
            && aged.Depth() == qs.Depth() && aged.critical == qs.critical
            && (qs.AtOwnLevel() ==> aged.AtOwnLevel())
            && forall t :: aged.Holds(t) == qs.Holds(t)
  {
    var one := AgedFrom(qs, Background, now);
    var two := AgedFrom(one, Normal, now);
    AgedFromKeeps(qs, Background, now);
    AgedFromKeeps(one, Normal, now);
    AgedFromKeeps(two, High, now);
  }

  /** A pop takes one operation off, the front of the best level, and nothing else. */
  lemma PoppedKeeps(qs: Levels, now: int)
    requires qs.AtOwnLevel() && Aged(qs, now).Depth() > 0
    ensures var (op, rest) := Popped(qs, now);
            && rest.AtOwnLevel() && rest.Depth() == qs.Depth() - 1
            && forall t :: qs.Holds(t) == rest.Holds(t) + (if op.ticket == t then 1 else 0)
  {
    AgedKeeps(qs, now);
  }

  /** What a pop serves: the first operation of the best level that holds any once aging is done. */
  ghost predicate ServesBest(aged: Levels, op: Operation, rest: Levels) {
    && aged.At(op.priority) != [] && aged.At(op.priority)[0] == op
    && (forall p: Priority :: RankOf(p) < RankOf(op.priority) ==> aged.At(p) == [] && rest.At(p) == [])
    && rest.At(op.priority) == aged.At(op.priority)[1..]
    && (forall p: Priority :: RankOf(p) > RankOf(op.priority) ==> rest.At(p) == aged.At(p))
  }

  lemma PopServesBest(qs: Levels, now: int)
    requires qs.AtOwnLevel() && Aged(qs, now).Depth() > 0
    ensures ServesBest(Aged(qs, now), Popped(qs, now).0, Popped(qs, now).1)
  {
    AgedKeeps(qs, now);
  }

  lemma PushedKeeps(qs: Levels, op: Operation)
    requires qs.AtOwnLevel()
    ensures Pushed(qs, op).AtOwnLevel() && Pushed(qs, op).Depth() == qs.Depth() + 1
    ensures forall t :: Pushed(qs, op).Holds(t) == qs.Holds(t) + (if op.ticket == t then 1 else 0)
  {
    forall t ensures Pushed(qs, op).Holds(t) == qs.Holds(t) + (if op.ticket == t then 1 else 0) {
      CountConcat(qs.At(op.priority), [op], t);
    }
  }

  lemma {:induction false} DrainKeeps(q: seq<Operation>, deadline: int, p: Priority, t: Ticket)
    ensures |Later(q, deadline)| + |Expired(q, deadline)| == |q|
    ensures Count(Later(q, deadline), t) + Count(Expired(q, deadline), t) == Count(q, t)
    ensures AllAt(q, p) ==> AllAt(Later(q, deadline), p)
    ensures Count(Later(q, deadline), t) == if t.deadline <= deadline then 0 else Count(q, t)
    decreases |q|
  {
    if q != [] {
      DrainKeeps(q[1..], deadline, p, t);
      if q[0].ticket.deadline <= deadline {
        CountConcat(Expired(q[1..], deadline), [q[0]], t);
      } else {
        CountConcat([q[0]], Later(q[1..], deadline), t);
      }
    }
  }

  /** What is drained from one level comes out last one first. */
  lemma {:induction false} ExpiredFromTheBack(q: seq<Operation>, deadline: int, i: nat, k: nat)
    returns (a: nat, b: nat)
    requires i < k < |q| && q[i].ticket.deadline <= deadline && q[k].ticket.deadline <= deadline
    ensures b < a < |Expired(q, deadline)| && Expired(q, deadline)[a] == q[i] && Expired(q, deadline)[b] == q[k]
    decreases i
  {
    if i == 0 {
      b := ExpiredAt(q[1..], deadline, k - 1);
      a := |Expired(q, deadline)| - 1;
    } else {
      a, b := ExpiredFromTheBack(q[1..], deadline, i - 1, k - 1);
    }
  }

  lemma {:induction false} ExpiredAt(q: seq<Operation>, deadline: int, i: nat) returns (a: nat)
    requires i < |q| && q[i].ticket.deadline <= deadline
    ensures a < |Expired(q, deadline)| && Expired(q, deadline)[a] == q[i]
    decreases i
  {
    if i == 0 {
      a := |Expired(q, deadline)| - 1;
    } else {
      a := ExpiredAt(q[1..], deadline, i - 1);
    }
  }

  lemma {:induction false} ExpiredStays(q: seq<Operation>, deadline: int, p: Priority)
    requires AllAt(q, p)
    ensures AllAt(Expired(q, deadline), p)
  {
    if q != [] {
      ExpiredStays(q[1..], deadline, p);
    }
  }

  /** A drain takes the levels one after the other, the best first. */
  lemma DrainsBestFirst(qs: Levels, deadline: int, i: nat, j: nat)
    requires qs.AtOwnLevel() && i < j < |AllExpired(qs, deadline)|
    ensures RankOf(AllExpired(qs, deadline)[i].priority) <= RankOf(AllExpired(qs, deadline)[j].priority)
  {
    ExpiredStays(qs.critical, deadline, Critical);
    ExpiredStays(qs.high, deadline, High);
    ExpiredStays(qs.normal, deadline, Normal);
    ExpiredStays(qs.background, deadline, Background);
  }

  function AllExpired(qs: Levels, deadline: int): seq<Operation> {
    Expired(qs.critical, deadline) + Expired(qs.high, deadline)
    + Expired(qs.normal, deadline) + Expired(qs.background, deadline)
  }

  ghost function TicketsOf(q: seq<Operation>): seq<Ticket> {
    if q == [] then [] else [q[0].ticket] + TicketsOf(q[1..])
  }

  lemma {:induction false} TicketsCounted(q: seq<Operation>, t: Ticket)
    ensures multiset(TicketsOf(q))[t] == Count(q, t)
  {
    if q != [] {
      TicketsCounted(q[1..], t);
    }
  }

  /** A drain splits the queue by deadline: what is due leaves, the rest stays where it is. */
  lemma DrainedKeeps(qs: Levels, deadline: int)
    ensures qs.AtOwnLevel() ==> Drained(qs, deadline).AtOwnLevel()
    ensures Drained(qs, deadline).Depth() + |AllExpired(qs, deadline)| == qs.Depth()
    ensures forall t :: Drained(qs, deadline).Holds(t) == if t.deadline <= deadline then 0 else qs.Holds(t)
    ensures forall t ::
              multiset(TicketsOf(AllExpired(qs, deadline)))[t] == if t.deadline <= deadline then qs.Holds(t) else 0
  {
    forall t
      ensures Drained(qs, deadline).Holds(t) == if t.deadline <= deadline then 0 else qs.Holds(t)
      ensures multiset(TicketsOf(AllExpired(qs, deadline)))[t] == if t.deadline <= deadline then qs.Holds(t) else 0
    {
      DrainedHolds(qs, deadline, t);
      ExpiredCounted(qs, deadline, t);
    }
    var any := Ticket(0, 0, 0);
    DrainKeeps(qs.critical, deadline, Critical, any);
    DrainKeeps(qs.high, deadline, High, any);
    DrainKeeps(qs.normal, deadline, Normal, any);
    DrainKeeps(qs.background, deadline, Background, any);
  }

  lemma DrainedHolds(qs: Levels, deadline: int, t: Ticket)
    ensures Drained(qs, deadline).Holds(t) == if t.deadline <= deadline then 0 else qs.Holds(t)
  {
    DrainKeeps(qs.critical, deadline, Critical, t);
    DrainKeeps(qs.high, deadline, High, t);
    DrainKeeps(qs.normal, deadline, Normal, t);
    DrainKeeps(qs.background, deadline, Background, t);
  }

  lemma ExpiredCounted(qs: Levels, deadline: int, t: Ticket)
    ensures multiset(TicketsOf(AllExpired(qs, deadline)))[t] == qs.Holds(t) - Drained(qs, deadline).Holds(t)
  {
    var e0, e1 := Expired(qs.critical, deadline), Expired(qs.high, deadline);
    var e2, e3 := Expired(qs.normal, deadline), Expired(qs.background, deadline);
    TicketsCounted(AllExpired(qs, deadline), t);
    CountConcat(e0 + e1 + e2, e3, t);
    CountConcat(e0 + e1, e2, t);
    CountConcat(e0, e1, t);
    DrainKeeps(qs.critical, deadline, Critical, t);
    DrainKeeps(qs.high, deadline, High, t);
    DrainKeeps(qs.normal, deadline, Normal, t);
    DrainKeeps(qs.background, deadline, Background, t);
  }

  // ---- The code ----

  lemma FromTheBack(q: seq<Operation>, i: nat)
    requires i < |q|
    ensures q[i..] == [q[i]] + q[i + 1..] && q[..i + 1] == q[..i] + [q[i]]
  {}

  /** The inner loop of aging: walks the deque from the back and takes the due operations out. */
  method TakeDue(q: seq<Operation>, now: int) returns (queue: seq<Operation>, toPromote: seq<Operation>)
    ensures queue == Kept(q, now)
    ensures |toPromote| == |Risen(q, now)|
    ensures forall k :: 0 <= k < |toPromote| ==> toPromote[k] in q && Promoted(toPromote[k]) == Risen(q, now)[k]
  {
    queue, toPromote := q, [];
    var i: nat := |q|;
    while i > 0
      invariant i <= |q|
      invariant queue == q[..i] + Kept(q[i..], now)
      invariant |toPromote| == |Risen(q[i..], now)|
      invariant forall k :: 0 <= k < |toPromote| ==>
                              toPromote[k] in q && Promoted(toPromote[k]) == Risen(q[i..], now)[k]
    {
      i := i - 1;
      FromTheBack(q, i);
      assert queue[i] == q[i] && queue[i + 1..] == Kept(q[i + 1..], now) && queue[..i] == q[..i];
      if Due(queue[i], now) {
        toPromote := toPromote + [queue[i]];
        queue := queue[..i] + queue[i + 1..];
      }
    }
    assert q[0..] == q;
  }

  /** The other loop of aging: each operation goes to the back of the level it now belongs to. */
  method Promote(qs: Levels, level: Priority, toPromote: seq<Operation>, ghost risen: seq<Operation>)
    returns (r: Levels)
    requires level != Critical && AllAt(toPromote, level) && |risen| == |toPromote|
    requires forall k :: 0 <= k < |toPromote| ==> Promoted(toPromote[k]) == risen[k]
    ensures var target := match AgeUp(level) case Some(p) => p case None => level;
            r == qs.With(target, qs.At(target) + risen)
  {
    r := qs;
    ghost var target := match AgeUp(level) case Some(p) => p case None => level;
    for k := 0 to |toPromote|
      invariant r == qs.With(target, qs.At(target) + risen[..k])
    {
      FromTheBack(risen, k);
      var op := toPromote[k];
      var to := match AgeUp(op.priority) case Some(p) => p case None => level;
      r := r.With(to, r.At(to) + [Promoted(op)]);
    }
    assert risen[..|toPromote|] == risen;
  }

  /** The draining loop of one level, again from the back. */
  method TakeExpired(q: seq<Operation>, deadline: int) returns (queue: seq<Operation>, expired: seq<Operation>)
    ensures queue == Later(q, deadline) && expired == Expired(q, deadline)
  {
    queue, expired := q, [];
    var i: nat := |q|;
    while i > 0
      invariant i <= |q|
      invariant queue == q[..i] + Later(q[i..], deadline)
      invariant expired == Expired(q[i..], deadline)
    {
      i := i - 1;
      FromTheBack(q, i);
      assert queue[i] == q[i] && queue[i + 1..] == Later(q[i + 1..], deadline) && queue[..i] == q[..i];
      if queue[i].ticket.deadline <= deadline {
        expired := expired + [queue[i]];
        queue := queue[..i] + queue[i + 1..];
      }
    }
    assert q[0..] == q;
  }

  // ---- Accounting over whole runs ----

  /** What has gone through the queue so far. */
  datatype History = History(
    accepted: multiset<Ticket>,
    popped: multiset<Ticket>,
    cancelled: multiset<Ticket>,
    drained: multiset<Ticket>)

  /** Whatever was accepted has been popped, cancelled or drained, or is still queued, and only one of these. */
  ghost predicate Balanced(h: History, qs: Levels) {
    forall t :: h.accepted[t] == h.popped[t] + h.cancelled[t] + h.drained[t] + qs.Holds(t)
  }

  ghost predicate Sound(h: History, qs: Levels, depth: nat, capacity: nat) {
    depth == qs.Depth() <= capacity && qs.AtOwnLevel() && Balanced(h, qs)
  }

  lemma PushIsSound(h: History, qs: Levels, depth: nat, capacity: nat, op: Operation)
    requires Sound(h, qs, depth, capacity) && Accepts(qs, capacity, op)
    ensures Sound(h.(accepted := h.accepted + multiset{op.ticket}), Pushed(qs, op), depth + 1, capacity)
  {
    PushedKeeps(qs, op);
  }

  lemma PopIsSound(h: History, qs: Levels, depth: nat, capacity: nat, now: int)
    requires Sound(h, qs, depth, capacity) && depth > 0
    ensures Aged(qs, now).Depth() > 0
    ensures Sound(h.(popped := h.popped + multiset{Popped(qs, now).0.ticket}), Popped(qs, now).1, depth - 1, capacity)
  {
    AgedKeeps(qs, now);
    PoppedKeeps(qs, now);
  }

  lemma CancelIsSound(h: History, qs: Levels, depth: nat, capacity: nat, cancelled: multiset<Ticket>)
    requires Sound(h, qs, depth, capacity)
    requires forall t :: cancelled[t] == qs.Holds(t)
    ensures Sound(h.(cancelled := h.cancelled + cancelled), EMPTY, 0, capacity)
  {}

  lemma DrainIsSound(h: History, qs: Levels, depth: nat, capacity: nat, deadline: int, expired: seq<Operation>)
    requires Sound(h, qs, depth, capacity) && expired == AllExpired(qs, deadline)
    ensures |expired| <= depth
    ensures Sound(h.(drained := h.drained + multiset(TicketsOf(expired))), Drained(qs, deadline),
                  depth - |expired|, capacity)
  {
    DrainedKeeps(qs, deadline);
  }

  class Queue {
    var queues: Levels
    var depth: nat
    const capacity: nat
    var rejected: nat
    ghost var history: History

    ghost predicate Valid()
      reads this
    {
      Sound(history, queues, depth, capacity)
    }

    constructor (capacity: nat)
      ensures Valid() && queues == EMPTY && this.capacity == capacity
    {
      this.capacity := capacity;
      queues, depth, rejected := EMPTY, 0, 0;
      history := History(multiset{}, multiset{}, multiset{}, multiset{});
    }

    method Push(op: Operation) returns (ok: bool)
      requires Valid()
      modifies this
      ensures Valid()
      ensures ok <==> Accepts(old(queues), capacity, op)
      ensures var qs := old(queues);
              ok <==> && |qs.critical| + |qs.high| + |qs.normal| + |qs.background| < capacity
                      && match op.priority
                         case Critical => |qs.critical| < 64
                         case High => |qs.high| < 128
                         case Normal => |qs.normal| < 512
                         case Background => |qs.background| < 320
      ensures queues == if ok then Pushed(old(queues), op) else old(queues)
      ensures rejected == old(rejected) + if ok then 0 else 1
      ensures history ==
              if ok then old(history).(accepted := old(history).accepted + multiset{op.ticket}) else old(history)
    {
      if depth >= capacity {
        rejected := rejected + 1;
        return false;
      }
      if |queues.At(op.priority)| >= Capacity(op.priority) {
        rejected := rejected + 1;
        return false;
      }
      PushIsSound(history, queues, depth, capacity, op);
      queues := queues.With(op.priority, queues.At(op.priority) + [op]);
      depth := depth + 1;
      history := history.(accepted := history.accepted + multiset{op.ticket});
      return true;
    }

    method AgeLevel(level: Priority, now: int)
      requires level != Critical && queues.AtOwnLevel()
      modifies this`queues
      ensures queues == AgedFrom(old(queues), level, now)
      ensures queues.AtOwnLevel()
    {
      AgedFromKeeps(queues, level, now);
      ghost var risen := Risen(queues.At(level), now);
      var queue, toPromote := TakeDue(queues.At(level), now);
      queues := queues.With(level, queue);
      queues := Promote(queues, level, toPromote, risen);
    }

    method AgeAll(now: int)
      requires queues.AtOwnLevel()
      modifies this`queues
      ensures queues == Aged(old(queues), now)
    {
      AgeLevel(Background, now);
      AgeLevel(Normal, now);
      AgeLevel(High, now);
    }

    method TakeFront(p: Priority) returns (op: Operation)
      requires queues.At(p) != []
      modifies this`queues
      ensures op == old(queues).At(p)[0] && queues == old(queues).With(p, old(queues).At(p)[1..])
    {
      op := queues.At(p)[0];
      queues := queues.With(p, queues.At(p)[1..]);
    }

    method PopPriority(now: int) returns (r: Option<Operation>)
      requires Valid()
      modifies this
      ensures Valid()
      ensures r.None? <==> old(queues).Depth() == 0
      ensures r.None? ==> queues == old(queues) && history == old(history)
      ensures r.Some? ==>
                && Aged(old(queues), now).Depth() > 0
                && (r.value, queues) == Popped(old(queues), now)
                && history == old(history).(popped := old(history).popped + multiset{r.value.ticket})
      ensures r.Some? ==> ServesBest(Aged(old(queues), now), r.value, queues)
      ensures rejected == old(rejected)
    {
      if depth == 0 {
        return None;
      }
      PopServesBest(queues, now);
      PopIsSound(history, queues, depth, capacity, now);
      AgeAll(now);
      var op := TakeFront(queues.Best());
      depth := depth - 1;
      history := history.(popped := history.popped + multiset{op.ticket});
      return Some(op);
    }

    /** Cancels everything and says how many. */
    method CancelAll() returns (count: nat)
      requires Valid()
      modifies this
      ensures Valid()
      ensures queues == EMPTY && count == old(queues).Depth()
      ensures history == old(history).(cancelled := history.cancelled) && rejected == old(rejected)
    {
      ghost var qs, h := queues, history;
      ghost var gone0, gone1, gone2, gone3;
      var c0, c1, c2, c3;
      c0, gone0 := CancelLevel(Critical);
      c1, gone1 := CancelLevel(High);
      c2, gone2 := CancelLevel(Normal);
      c3, gone3 := CancelLevel(Background);
      count := c0 + c1 + c2 + c3;
      CancelIsSound(h, qs, depth, capacity, gone0 + gone1 + gone2 + gone3);
      depth := 0;
      history := history.(cancelled := history.cancelled + (gone0 + gone1 + gone2 + gone3));
    }

    method CancelLevel(p: Priority) returns (count: nat, ghost gone: multiset<Ticket>)
      modifies this`queues
      ensures queues == old(queues).With(p, []) && count == |old(queues).At(p)|
      ensures forall t :: gone[t] == Count(old(queues).At(p), t)
    {
      count, gone := 0, multiset{};
      ghost var q := queues.At(p);
      while queues.At(p) != []
        invariant count <= |q| && queues == old(queues).With(p, q[count..])
        invariant forall t :: gone[t] + Count(q[count..], t) == Count(q, t)
        decreases |queues.At(p)|
      {
        var op := queues.At(p)[0];
        queues := queues.With(p, queues.At(p)[1..]);
        gone := gone + multiset{op.ticket};
        count := count + 1;
      }
    }

    /** Takes out, level by level and from the back, what is due by `deadline`. */
    method Drain(deadline: int) returns (expired: seq<Operation>)
      requires Valid()
      modifies this
      ensures Valid()
      ensures queues == Drained(old(queues), deadline)
      ensures expired == AllExpired(old(queues), deadline)
      ensures history == old(history).(drained := old(history).drained + multiset(TicketsOf(expired)))
      ensures rejected == old(rejected)
    {
      ghost var qs := queues;
      var e0 := DrainLevel(Critical, deadline);
      var e1 := DrainLevel(High, deadline);
      var e2 := DrainLevel(Normal, deadline);
      var e3 := DrainLevel(Background, deadline);
      expired := e0 + e1 + e2 + e3;
      DrainIsSound(history, qs, depth, capacity, deadline, expired);
      depth := depth - |expired|;
      history := history.(drained := history.drained + multiset(TicketsOf(expired)));
    }

    method DrainLevel(p: Priority, deadline: int) returns (expired: seq<Operation>)
      modifies this`queues
      ensures queues == old(queues).With(p, Later(old(queues).At(p), deadline))
      ensures expired == Expired(old(queues).At(p), deadline)
    {
      var queue;
      queue, expired := TakeExpired(queues.At(p), deadline);
      queues := queues.With(p, queue);
    }
  }
}
