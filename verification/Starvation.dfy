/**
How long a queued operation waits. Aging stops below the critical level, so the waiting is bounded by the
pops that find the critical level empty, and by nothing else.
*/
module Starvation {
  import opened Numbers
  import opened OperationQueue

  datatype Place = Place(level: Priority, index: nat)

  ghost predicate IsAt(qs: Levels, place: Place, op: Operation) {
    place.index < |qs.At(place.level)| && qs.At(place.level)[place.index] == op
  }

  // ---- Where aging puts one operation ----

  lemma {:induction false} KeptAt(q: seq<Operation>, now: int, i: nat) returns (j: nat)
    requires i < |q| && !Due(q[i], now)
    ensures j <= i && j < |Kept(q, now)| && Kept(q, now)[j] == q[i]
    decreases i
  {
    j := 0;
    if i > 0 {
      j := KeptAt(q[1..], now, i - 1);
      j := if Due(q[0], now) then j else j + 1;
    }
  }

  /** Operations that are not due stay in their order. */
  lemma {:induction false} KeptInOrder(q: seq<Operation>, now: int, i: nat, k: nat) returns (a: nat, b: nat)
    requires i < k < |q| && !Due(q[i], now) && !Due(q[k], now)
    ensures a < b < |Kept(q, now)| && Kept(q, now)[a] == q[i] && Kept(q, now)[b] == q[k]
    decreases i
  {
    if i == 0 {
      b := KeptAt(q[1..], now, k - 1);
      a, b := 0, b + 1;
    } else {
      a, b := KeptInOrder(q[1..], now, i - 1, k - 1);
      if !Due(q[0], now) { a, b := a + 1, b + 1; }
    }
  }

  lemma {:induction false} RisenAt(q: seq<Operation>, now: int, i: nat) returns (j: nat)
    requires i < |q| && Due(q[i], now)
    ensures j < |Risen(q, now)| && Risen(q, now)[j] == Promoted(q[i])
    decreases i
  {
    if i == 0 {
      j := |Risen(q, now)| - 1;
    } else {
      j := RisenAt(q[1..], now, i - 1);
    }
  }

  lemma {:induction false} LaterAt(q: seq<Operation>, deadline: int, i: nat) returns (j: nat)
    requires i < |q| && q[i].ticket.deadline > deadline
    ensures j <= i && j < |Later(q, deadline)| && Later(q, deadline)[j] == q[i]
    decreases i
  {
    j := 0;
    if i > 0 {
      j := LaterAt(q[1..], deadline, i - 1);
      j := if q[0].ticket.deadline <= deadline then j else j + 1;
    }
  }

  // ---- The operations the bound is about ----

  /** Below critical, and no older than its promotions so far account for; every operation pushed with age 0 is. */
  predicate Climber(op: Operation) {
    match op.priority
    case Critical => false
    case High => op.age <= 3
    case Normal => op.age <= 1
    case Background => op.age == 0
  }

  /** It has waited for as long as the slowest level asks. */
  predicate WaitsLong(op: Operation, now: int) {
    Wait(op, now) >= MaxWait(Background)
  }

  /** One pass over one level promotes an operation if it is there and due, and leaves it no further back if not. */
  lemma AgeOnce(qs: Levels, p: Priority, now: int, place: Place, op: Operation)
    returns (after: Place, aged: Operation)
    requires qs.AtOwnLevel() && IsAt(qs, place, op) && p != Critical
    ensures IsAt(AgedFrom(qs, p, now), after, aged) && aged.ticket == op.ticket && after.level == aged.priority
    ensures if place.level == p && Due(op, now) then aged == Promoted(op)
            else aged == op && after.level == place.level && after.index <= place.index
  {
    after, aged := place, op;
    if place.level == p {
      var q := qs.At(p);
      var j;
      if Due(op, now) {
        j := RisenAt(q, now, place.index);
        aged := Promoted(op);
        after := if p == Background then Place(Normal, |qs.normal| + j)
                 else if p == Normal then Place(High, |qs.high| + j)
                 else Place(High, |Kept(q, now)| + j);
      } else {
        j := KeptAt(q, now, place.index);
        after := Place(p, j);
      }
    }
  }

  /** The first two passes take a long-waiting operation up to the high level. */
  lemma RisesToHigh(qs: Levels, now: int, place: Place, op: Operation) returns (after: Place, aged: Operation)
    requires qs.AtOwnLevel() && IsAt(qs, place, op) && Climber(op)
    requires op.age < 3 ==> WaitsLong(op, now)
    ensures var two := AgedFrom(AgedFrom(qs, Background, now), Normal, now);
            two.AtOwnLevel() && IsAt(two, after, aged) && aged.ticket == op.ticket && Climber(aged)
    ensures after.level == High
    ensures if op.priority == High then aged == op && after.index <= place.index else op.age < aged.age < 3
  {
    var one := AgedFrom(qs, Background, now);
    AgedFromKeeps(qs, Background, now);
    AgedFromKeeps(one, Normal, now);
    assert op.priority == place.level;
    after, aged := AgeOnce(qs, Background, now, place, op);
    after, aged := AgeOnce(one, Normal, now, after, aged);
  }

  /** After aging a long-waiting operation is at the high level and older, or has age 3 and is no further back. */
  lemma AgedClimbs(qs: Levels, now: int, place: Place, op: Operation) returns (after: Place, aged: Operation)
    requires qs.AtOwnLevel() && IsAt(qs, place, op) && Climber(op)
    requires op.age < 3 ==> WaitsLong(op, now)
    ensures IsAt(Aged(qs, now), after, aged) && aged.ticket == op.ticket && Climber(aged)
    ensures after.level == High
    ensures if op.age < 3 then aged.age > op.age else aged == op && after.index <= place.index
  {
    var two := AgedFrom(AgedFrom(qs, Background, now), Normal, now);
    after, aged := RisesToHigh(qs, now, place, op);
    after, aged := AgeOnce(two, High, now, after, aged);
  }

  /** The wait after which aging moves an operation of a level, in nanoseconds; none ever moves a critical one. */
  predicate WaitedEnough(op: Operation, now: int) {
    match op.priority
    case Critical => false
    case High => now - op.ticket.submittedAt >= 500_000_000
    case Normal => now - op.ticket.submittedAt >= 2_000_000_000
    case Background => now - op.ticket.submittedAt >= 10_000_000_000
  }

  /**
  What one aging makes of any operation. If it has waited enough for its level and was promoted fewer than three times,
  each level it comes through on the way to the high one adds a promotion, up to three; if not, it keeps its place.
  */
  lemma AgesExactly(qs: Levels, now: int, place: Place, op: Operation) returns (after: Place, aged: Operation)
    requires qs.AtOwnLevel() && IsAt(qs, place, op)
    ensures IsAt(Aged(qs, now), after, aged) && aged.ticket == op.ticket && after.level == aged.priority
    ensures if op.age < 3 && WaitedEnough(op, now)
            then aged.age == Min(3, op.age + (if op.priority == Background then 3
                                              else if op.priority == Normal then 2 else 1))
                 && aged.priority == if op.priority == Background && op.age == 2 then Normal else High
            else aged == op && after.level == place.level && after.index <= place.index
  {
    var one := AgedFrom(qs, Background, now);
    var two := AgedFrom(one, Normal, now);
    AgedFromKeeps(qs, Background, now);
    AgedFromKeeps(one, Normal, now);
    after, aged := AgeOnce(qs, Background, now, place, op);
    after, aged := AgeOnce(one, Normal, now, after, aged);
    after, aged := AgeOnce(two, High, now, after, aged);
  }

  // ---- The bound ----

  /** Pops with an empty critical level still to come, at most, before the operation is returned. */
  function Rank(op: Operation, index: nat, capacity: nat): int {
    if op.age >= 3 then index else capacity + 1 - op.age
  }

  lemma PopClimbs(qs: Levels, now: int, capacity: nat, place: Place, op: Operation)
    returns (after: Place, aged: Operation)
    requires qs.AtOwnLevel() && qs.Depth() <= capacity && IsAt(qs, place, op) && Climber(op)
    requires op.age < 3 ==> WaitsLong(op, now)
    ensures Aged(qs, now).Depth() > 0
    ensures var (out, rest) := Popped(qs, now);
            && (qs.critical != [] ==> out.priority == Critical)
            && (out.ticket != op.ticket ==>
                  && IsAt(rest, after, aged) && aged.ticket == op.ticket && Climber(aged)
                  && Rank(aged, after.index, capacity) + (if qs.critical == [] then 1 else 0)
                     <= Rank(op, place.index, capacity))
  {
    AgedKeeps(qs, now);
    after, aged := AgedClimbs(qs, now, place, op);
    var all := Aged(qs, now);
    assert all.high[after.index] == aged && after.index < all.Depth() <= capacity;
    if qs.critical == [] {
      assert all.Best() == High;
      if after.index > 0 {
        assert all.high[1..][after.index - 1] == aged;
        after := Place(High, after.index - 1);
      }
    }
  }

  datatype Event = Push(op: Operation) | Pop(now: int) | Drain(deadline: int)

  function After(qs: Levels, event: Event, capacity: nat): Levels {
    match event
    case Push(op) => if Accepts(qs, capacity, op) then Pushed(qs, op) else qs
    case Pop(now) => if Aged(qs, now).Depth() == 0 then qs else Popped(qs, now).1
    case Drain(deadline) => Drained(qs, deadline)
  }

  lemma AfterKeeps(qs: Levels, event: Event, capacity: nat)
    requires qs.AtOwnLevel() && qs.Depth() <= capacity
    ensures After(qs, event, capacity).AtOwnLevel() && After(qs, event, capacity).Depth() <= capacity
  {
    match event {
      case Push(op) => PushedKeeps(qs, op);
      case Pop(now) =>
        AgedKeeps(qs, now);
        if Aged(qs, now).Depth() > 0 { PoppedKeeps(qs, now); }
      case Drain(deadline) => DrainedKeeps(qs, deadline);
    }
  }

  /** The event is a pop that returns the operation with this ticket. */
  predicate Returns(qs: Levels, event: Event, t: Ticket) {
    event.Pop? && Aged(qs, event.now).Depth() > 0 && Popped(qs, event.now).0.ticket == t
  }

  predicate ReturnedIn(qs: Levels, events: seq<Event>, capacity: nat, t: Ticket)
    decreases |events|
  {
    events != [] && (Returns(qs, events[0], t) || ReturnedIn(After(qs, events[0], capacity), events[1..], capacity, t))
  }

  predicate IsFreePop(qs: Levels, event: Event) {
    event.Pop? && qs.critical == []
  }

  /** How many pops of a run find the critical level empty. */
  function FreePops(qs: Levels, events: seq<Event>, capacity: nat): nat
    decreases |events|
  {
    if events == [] then 0
    else (if IsFreePop(qs, events[0]) then 1 else 0) + FreePops(After(qs, events[0], capacity), events[1..], capacity)
  }

  /** The event does not drain the operation, and a pop comes when it has waited long. */
  ghost predicate Harmless(event: Event, t: Ticket) {
    match event
    case Push(_) => true
    case Pop(now) => WaitsLong(Operation(t, Background, 0), now)
    case Drain(deadline) => t.deadline > deadline
  }

  ghost predicate Undisturbed(events: seq<Event>, t: Ticket) {
    forall i :: 0 <= i < |events| ==> Harmless(events[i], t)
  }

  lemma StepClimbs(qs: Levels, event: Event, capacity: nat, place: Place, op: Operation)
    returns (after: Place, aged: Operation)
    requires qs.AtOwnLevel() && qs.Depth() <= capacity && IsAt(qs, place, op) && Climber(op)
    requires Harmless(event, op.ticket)
    requires !Returns(qs, event, op.ticket)
    ensures IsAt(After(qs, event, capacity), after, aged) && aged.ticket == op.ticket && Climber(aged)
    ensures Rank(aged, after.index, capacity) + (if IsFreePop(qs, event) then 1 else 0)
            <= Rank(op, place.index, capacity)
  {
    after, aged := place, op;
    match event {
      case Push(_) =>
      case Pop(now) =>
        after, aged := PopClimbs(qs, now, capacity, place, op);
      case Drain(deadline) =>
        var j := LaterAt(qs.At(place.level), deadline, place.index);
        after := Place(place.level, j);
    }
  }

  /** Every pop that finds the critical level empty and returns something else brings the operation closer. */
  lemma {:induction false} CloserAtEveryFreePop(qs: Levels, events: seq<Event>, capacity: nat, place: Place,
                                                op: Operation)
    requires qs.AtOwnLevel() && qs.Depth() <= capacity && IsAt(qs, place, op) && Climber(op)
    requires Undisturbed(events, op.ticket) && !ReturnedIn(qs, events, capacity, op.ticket)
    ensures FreePops(qs, events, capacity) <= Rank(op, place.index, capacity)
    decreases |events|
  {
    if events != [] {
      var after, aged := StepClimbs(qs, events[0], capacity, place, op);
      AfterKeeps(qs, events[0], capacity);
      CloserAtEveryFreePop(After(qs, events[0], capacity), events[1..], capacity, after, aged);
    }
  }

  /** No starvation, as far as it goes: `capacity + 2` pops that find no critical operation suffice. */
  lemma ReturnedWithinFreePops(qs: Levels, events: seq<Event>, capacity: nat, place: Place, op: Operation)
    requires qs.AtOwnLevel() && qs.Depth() <= capacity && IsAt(qs, place, op) && Climber(op)
    requires Undisturbed(events, op.ticket)
    requires FreePops(qs, events, capacity) >= capacity + 2
    ensures ReturnedIn(qs, events, capacity, op.ticket)
  {
    if !ReturnedIn(qs, events, capacity, op.ticket) {
      CloserAtEveryFreePop(qs, events, capacity, place, op);
    }
  }

  /** Nothing below critical is returned while a critical operation is queued. */
  lemma OnlyFreePopsReturnIt(qs: Levels, now: int)
    requires qs.AtOwnLevel() && Aged(qs, now).Depth() > 0
    ensures Popped(qs, now).0.priority == Critical <==> qs.critical != []
  {
    AgedKeeps(qs, now);
  }

  // ---- The bound is met ----

  /** At the high level with all its promotions: aging leaves it where it is. */
  ghost predicate AllOld(q: seq<Operation>) {
    forall i :: 0 <= i < |q| ==> q[i].priority == High && q[i].age >= 3
  }

  ghost predicate NoneIs(q: seq<Operation>, t: Ticket) {
    forall i :: 0 <= i < |q| ==> q[i].ticket != t
  }

  lemma {:induction false} OldStay(q: seq<Operation>, now: int)
    requires AllOld(q)
    ensures Kept(q, now) == q && Risen(q, now) == []
  {
    if q != [] {
      OldStay(q[1..], now);
    }
  }

  lemma {:induction false} AgingConcat(a: seq<Operation>, b: seq<Operation>, now: int)
    ensures Kept(a + b, now) == Kept(a, now) + Kept(b, now)
    ensures Risen(a + b, now) == Risen(b, now) + Risen(a, now)
    decreases |a|
  {
    if a == [] {
      assert a + b == b;
    } else {
      AgingConcat(a[1..], b, now);
      assert (a + b)[0] == a[0] && (a + b)[1..] == a[1..] + b;
    }
  }

  lemma OneAges(x: Operation, now: int)
    requires Due(x, now)
    ensures Kept([x], now) == [] && Risen([x], now) == [Promoted(x)]
  {}

  /** Due operations among old ones go behind them, the last one first. */
  lemma FallsBehind(a: seq<Operation>, op: Operation, b: seq<Operation>, now: int)
    requires AllOld(a) && AllOld(b) && Due(op, now)
    ensures Kept(a + ([op] + b), now) == a + b && Risen(a + ([op] + b), now) == [Promoted(op)]
  {
    AgingConcat(a, [op] + b, now);
    AgingConcat([op], b, now);
    OldStay(a, now);
    OldStay(b, now);
    OneAges(op, now);
  }

  lemma BothFallBehind(a: seq<Operation>, op: Operation, x: Operation, now: int)
    requires AllOld(a) && Due(op, now) && Due(x, now)
    ensures var high := a + ([op] + []) + [x];
            Kept(high, now) == a && Risen(high, now) == [Promoted(x)] + [Promoted(op)]
  {
    FallsBehind(a, op, [], now);
    OneAges(x, now);
    AgingConcat(a + ([op] + []), [x], now);
  }

  /** A background operation that has waited long comes all the way up, but not behind one that is due there. */
  lemma RisesBefore(a: seq<Operation>, op: Operation, y: Operation, now: int) returns (up: Operation)
    requires AllOld(a) && op.priority == High && op.age < 3 && WaitsLong(op, now)
    requires y.priority == Background && y.age == 0 && WaitsLong(y, now)
    ensures AllOld([up]) && up.ticket == y.ticket
    ensures Aged(Levels([], a + ([op] + []), [], [y]), now) == Levels([], a + [up] + [Promoted(op)], [], [])
  {
    var once, twice := Promoted(y), Promoted(Promoted(y));
    up := Promoted(twice);
    OneAges(y, now);
    OneAges(once, now);
    BothFallBehind(a, op, twice, now);
    assert [] + [once] == [once] && a + ([up] + [Promoted(op)]) == a + [up] + [Promoted(op)];
  }

  /** A pop that finds no critical operation and returns another one. */
  lemma FreePopOfAnother(qs: Levels, now: int, rest: seq<Event>, capacity: nat, t: Ticket)
    requires qs.critical == [] && Aged(qs, now).Depth() > 0 && Popped(qs, now).0.ticket != t
    ensures var events, next := [Pop(now)] + rest, Popped(qs, now).1;
            && (ReturnedIn(qs, events, capacity, t) <==> ReturnedIn(next, rest, capacity, t))
            && FreePops(qs, events, capacity) == 1 + FreePops(next, rest, capacity)
  {
    assert ([Pop(now)] + rest)[1..] == rest;
  }

  lemma PushInBetween(qs: Levels, op: Operation, rest: seq<Event>, capacity: nat, t: Ticket)
    requires Accepts(qs, capacity, op)
    ensures var events, next := [Push(op)] + rest, Pushed(qs, op);
            && (ReturnedIn(qs, events, capacity, t) <==> ReturnedIn(next, rest, capacity, t))
            && FreePops(qs, events, capacity) == FreePops(next, rest, capacity)
  {
    assert ([Push(op)] + rest)[1..] == rest;
  }

  function Pops(nows: seq<int>): seq<Event> {
    if nows == [] then [] else [Pop(nows[0])] + Pops(nows[1..])
  }

  /** Old operations leave in the order they are in. */
  lemma {:induction false} OldLeaveInOrder(front: seq<Operation>, op: Operation, nows: seq<int>, capacity: nat)
    requires AllOld(front) && AllOld([op]) && NoneIs(front, op.ticket) && |nows| == |front|
    ensures var qs := Levels([], front + [op], [], []);
            !ReturnedIn(qs, Pops(nows), capacity, op.ticket) && FreePops(qs, Pops(nows), capacity) == |nows|
    decreases |nows|
  {
    if nows != [] {
      var high := front + [op];
      OldStay(high, nows[0]);
      assert high + [] == high && high[0] == front[0] && high[1..] == front[1..] + [op];
      FreePopOfAnother(Levels([], high, [], []), nows[0], Pops(nows[1..]), capacity, op.ticket);
      OldLeaveInOrder(front[1..], op, nows[1..], capacity);
    }
  }

  /** A new background operation arrives before each of the first pops; then there are only pops. */
  function SlowRun(fillers: seq<Operation>, nows: seq<int>): seq<Event>
    requires |fillers| <= |nows|
  {
    if fillers == [] then Pops(nows)
    else [Push(fillers[0])] + ([Pop(nows[0])] + SlowRun(fillers[1..], nows[1..]))
  }

  /** The operations and the clock readings of the run that meets the bound. */
  ghost predicate LongWaiting(op: Operation, fillers: seq<Operation>, nows: seq<int>) {
    && op.priority == High && NoneIs(fillers, op.ticket)
    && (forall i :: 0 <= i < |nows| ==> WaitsLong(op, nows[i]))
    && forall k :: 0 <= k < |fillers| ==>
         && fillers[k].priority == Background && fillers[k].age == 0
         && forall i :: 0 <= i < |nows| ==> WaitsLong(fillers[k], nows[i])
  }

  /** A filler comes up before the operation, and the first one leaves. */
  lemma OneTurn(front: seq<Operation>, op: Operation, y: Operation, now: int, rest: seq<Event>, capacity: nat)
    returns (next: seq<Operation>)
    requires AllOld(front) && NoneIs(front, op.ticket) && y.ticket != op.ticket && |front| + 2 == capacity
    requires op.priority == High && op.age < 3 && WaitsLong(op, now)
    requires y.priority == Background && y.age == 0 && WaitsLong(y, now)
    ensures AllOld(next) && NoneIs(next, op.ticket) && |next| == |front|
    ensures var qs, events := Levels([], front + [op], [], []), [Push(y)] + ([Pop(now)] + rest);
            var after := Levels([], next + [Promoted(op)], [], []);
            && (ReturnedIn(qs, events, capacity, op.ticket) <==> ReturnedIn(after, rest, capacity, op.ticket))
            && FreePops(qs, events, capacity) == 1 + FreePops(after, rest, capacity)
  {
    var up := RisesBefore(front, op, y, now);
    var all := front + [up];
    next := all[1..];
    assert NoneIs(all, op.ticket) && AllOld(all);
    assert (all + [Promoted(op)])[0] == all[0] && (all + [Promoted(op)])[1..] == next + [Promoted(op)];
    assert [op] + [] == [op] && [] + [y] == [y];
    PushInBetween(Levels([], front + [op], [], []), y, [Pop(now)] + rest, capacity, op.ticket);
    FreePopOfAnother(Levels([], front + ([op] + []), [], [y]), now, rest, capacity, op.ticket);
  }

  lemma {:induction false} SlowFrom(front: seq<Operation>, op: Operation, fillers: seq<Operation>, nows: seq<int>,
                                    capacity: nat)
    requires AllOld(front) && NoneIs(front, op.ticket) && |front| + 2 == capacity
    requires op.age + |fillers| == 3 && |nows| == |fillers| + |front| && LongWaiting(op, fillers, nows)
    ensures var qs, events := Levels([], front + [op], [], []), SlowRun(fillers, nows);
            !ReturnedIn(qs, events, capacity, op.ticket) && FreePops(qs, events, capacity) == |nows|
    decreases |fillers|
  {
    if fillers == [] {
      OldLeaveInOrder(front, op, nows, capacity);
    } else {
      assert NoneIs(fillers[1..], op.ticket);
      var next := OneTurn(front, op, fillers[0], nows[0], SlowRun(fillers[1..], nows[1..]), capacity);
      SlowFrom(next, Promoted(op), fillers[1..], nows[1..], capacity);
    }
  }

  lemma FirstTurn(op: Operation, others: seq<Operation>, now: int, rest: seq<Event>, capacity: nat)
    requires AllOld(others) && NoneIs(others, op.ticket) && others != []
    requires op.priority == High && Due(op, now)
    ensures var qs, next := Levels([], [op] + others, [], []), Levels([], others[1..] + [Promoted(op)], [], []);
            var events := [Pop(now)] + rest;
            && (ReturnedIn(qs, events, capacity, op.ticket) <==> ReturnedIn(next, rest, capacity, op.ticket))
            && FreePops(qs, events, capacity) == 1 + FreePops(next, rest, capacity)
  {
    var qs, behind := Levels([], [op] + others, [], []), others + [Promoted(op)];
    FallsBehind([], op, others, now);
    assert [] + ([op] + others) == [op] + others && [] + others == others;
    assert qs.normal + [] == qs.normal && qs.high + [] == qs.high;
    assert Aged(qs, now) == Levels([], behind, [], []);
    assert behind[0] == others[0] && behind[1..] == others[1..] + [Promoted(op)];
    FreePopOfAnother(qs, now, rest, capacity, op.ticket);
  }

  lemma NotReturnedYet(op: Operation, others: seq<Operation>, fillers: seq<Operation>, nows: seq<int>, capacity: nat)
    requires |others| == capacity - 1 >= 1 && |fillers| == 2 && |nows| == capacity
    requires op.age == 1 && AllOld(others) && NoneIs(others, op.ticket) && LongWaiting(op, fillers, nows)
    ensures var qs, events := Levels([], others[1..] + [op], [], []), SlowRun(fillers, nows);
            FreePops(qs, events, capacity) == capacity && !ReturnedIn(qs, events, capacity, op.ticket)
  {
    SlowFrom(others[1..], op, fillers, nows, capacity);
  }

  lemma HarmlessAfterPop(op: Operation, now: int, rest: seq<Event>)
    requires WaitsLong(op, now) && Undisturbed(rest, op.ticket)
    ensures Undisturbed([Pop(now)] + rest, op.ticket)
  {}

  /**
  The bound is met: three pops promote an operation of the high level in place, each time behind all others, and then
  those leave first. So `capacity + 1` pops that find no critical operation need not be enough.
  */
  lemma BoundIsMet(op: Operation, others: seq<Operation>, fillers: seq<Operation>, nows: seq<int>, capacity: nat)
    returns (qs: Levels, events: seq<Event>)
    requires capacity >= 2 && |others| == capacity - 1 && |fillers| == 2 && |nows| == capacity + 1
    requires op.age == 0 && AllOld(others) && NoneIs(others, op.ticket) && LongWaiting(op, fillers, nows)
    ensures qs.AtOwnLevel() && qs.Depth() == capacity && IsAt(qs, Place(High, 0), op) && Climber(op)
    ensures Undisturbed(events, op.ticket) && FreePops(qs, events, capacity) == capacity + 1
    ensures !ReturnedIn(qs, events, capacity, op.ticket)
  {
    var rest := SlowRun(fillers, nows[1..]);
    qs, events := Levels([], [op] + others, [], []), [Pop(nows[0])] + rest;
    SlowRunIsHarmless(op, fillers, nows[1..]);
    HarmlessAfterPop(op, nows[0], rest);
    NotReturnedYet(Promoted(op), others, fillers, nows[1..], capacity);
    FirstTurn(op, others, nows[0], rest, capacity);
  }

  lemma {:induction false} SlowRunIsHarmless(op: Operation, fillers: seq<Operation>, nows: seq<int>)
    requires |fillers| <= |nows| && forall i :: 0 <= i < |nows| ==> WaitsLong(op, nows[i])
    ensures Undisturbed(SlowRun(fillers, nows), op.ticket)
    decreases |nows|
  {
    if nows != [] {
      if fillers == [] {
        SlowRunIsHarmless(op, fillers, nows[1..]);
      } else {
        SlowRunIsHarmless(op, fillers[1..], nows[1..]);
      }
    }
  }

  // ---- Starvation ----

  function AfterAll(qs: Levels, events: seq<Event>, capacity: nat): Levels
    decreases |events|
  {
    if events == [] then qs else AfterAll(After(qs, events[0], capacity), events[1..], capacity)
  }

  /** Critical operations arrive one by one, and a pop follows each. */
  function OneBeforeEachPop(criticals: seq<Operation>, nows: seq<int>): seq<Event>
    requires |criticals| == |nows|
  {
    if criticals == [] then []
    else [Push(criticals[0]), Pop(nows[0])] + OneBeforeEachPop(criticals[1..], nows[1..])
  }

  lemma RoundReturnsCritical(qs: Levels, critical: Operation, now: int)
    requires qs.AtOwnLevel() && qs.critical == [] && critical.priority == Critical
    ensures Aged(Pushed(qs, critical), now).Depth() > 0 && Popped(Pushed(qs, critical), now).0 == critical
    ensures var s := Popped(Pushed(qs, critical), now).1;
            && s.AtOwnLevel() && s.critical == [] && s.Depth() == qs.Depth()
            && forall t :: s.Holds(t) == qs.Holds(t)
  {
    var pushed := Pushed(qs, critical);
    PushedKeeps(qs, critical);
    AgedKeeps(pushed, now);
    PoppedKeeps(pushed, now);
  }

  /**
  However many pops there are and whenever they come, if a critical operation arrives before each, then exactly the
  critical operations are returned, no pop finds the critical level empty, and what was queued stays queued.
  */
  lemma {:induction false} StarvedForever(qs: Levels, criticals: seq<Operation>, nows: seq<int>, capacity: nat,
                                          t: Ticket)
    requires qs.AtOwnLevel() && qs.critical == [] && qs.Depth() < capacity
    requires |criticals| == |nows| && AllAt(criticals, Critical)
    ensures var events := OneBeforeEachPop(criticals, nows);
            var s := AfterAll(qs, events, capacity);
            && (ReturnedIn(qs, events, capacity, t) <==> exists i :: 0 <= i < |criticals| && criticals[i].ticket == t)
            && FreePops(qs, events, capacity) == 0
            && s.AtOwnLevel() && s.critical == [] && s.Depth() == qs.Depth() && s.Holds(t) == qs.Holds(t)
    decreases |criticals|
  {
    if criticals != [] {
      var critical, now, rest := criticals[0], nows[0], OneBeforeEachPop(criticals[1..], nows[1..]);
      RoundReturnsCritical(qs, critical, now);
      OneRound(qs, critical, now, rest, capacity, t);
      StarvedForever(Popped(Pushed(qs, critical), now).1, criticals[1..], nows[1..], capacity, t);
      assert criticals == [critical] + criticals[1..];
      assert (exists i :: 0 <= i < |criticals| && criticals[i].ticket == t)
             <==> critical.ticket == t || exists i :: 0 <= i < |criticals[1..]| && criticals[1..][i].ticket == t;
    }
  }

  lemma OneRound(qs: Levels, critical: Operation, now: int, rest: seq<Event>, capacity: nat, t: Ticket)
    requires critical.priority == Critical && Accepts(qs, capacity, critical)
    requires Aged(Pushed(qs, critical), now).Depth() > 0 && Popped(Pushed(qs, critical), now).0 == critical
    ensures var events, next := [Push(critical), Pop(now)] + rest, Popped(Pushed(qs, critical), now).1;
            && (ReturnedIn(qs, events, capacity, t) <==> critical.ticket == t || ReturnedIn(next, rest, capacity, t))
            && FreePops(qs, events, capacity) == FreePops(next, rest, capacity)
            && AfterAll(qs, events, capacity) == AfterAll(next, rest, capacity)
  {
    var events := [Push(critical), Pop(now)] + rest;
    assert events[0] == Push(critical) && events[1..] == [Pop(now)] + rest && events[1..][1..] == rest;
  }
}
