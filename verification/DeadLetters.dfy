/** The dead-letter queue (crates/nova-event/src/dead_letter.rs). */
module DeadLetters {
  import opened Outcomes
  import opened EventStore

  datatype DeadLetter = DeadLetter(event: Event, subscriber: string, failedAt: nat)

  /** A push into a full queue takes the oldest entry out first; an empty queue has none to take out. */
  function Pushed(entries: seq<DeadLetter>, entry: DeadLetter, maxSize: nat): seq<DeadLetter> {
    (if |entries| >= maxSize && entries != [] then entries[1..] else entries) + [entry]
  }

  function PushedAll(entries: seq<DeadLetter>, more: seq<DeadLetter>, maxSize: nat): seq<DeadLetter> {
    if more == [] then entries
    else Pushed(PushedAll(entries, more[..|more| - 1], maxSize), more[|more| - 1], maxSize)
  }

  /** A queue of size zero still holds one entry. */
  function Effective(maxSize: nat): nat {
    if maxSize == 0 then 1 else maxSize
  }

  /** Past the end there is nothing to take out. */
  function WithoutAt(entries: seq<DeadLetter>, index: nat): seq<DeadLetter> {
    if index < |entries| then entries[..index] + entries[index + 1..] else entries
  }

  /** The last `n` elements, or all if there are fewer. */
  function Last<T>(xs: seq<T>, n: nat): seq<T> {
    if |xs| <= n then xs else xs[|xs| - n..]
  }

  /** However many entries are pushed, the queue is the end of all that were, as much as fits. */
  lemma {:induction false} PushedAllIsLast(entries: seq<DeadLetter>, more: seq<DeadLetter>, maxSize: nat)
    requires |entries| <= Effective(maxSize)
    ensures PushedAll(entries, more, maxSize) == Last(entries + more, Effective(maxSize))
    decreases |more|
  {
    if more == [] {
      assert entries + more == entries;
    } else {
      var n := |more| - 1;
      PushedAllIsLast(entries, more[..n], maxSize);
      assert entries + more == entries + more[..n] + [more[n]];
    }
  }

  lemma PushedAllSnoc(entries: seq<DeadLetter>, more: seq<DeadLetter>, entry: DeadLetter, maxSize: nat)
    ensures PushedAll(entries, more + [entry], maxSize) == Pushed(PushedAll(entries, more, maxSize), entry, maxSize)
  {}

  /** How many entries are pushed out when more are pushed. */
  function Evicted(entries: seq<DeadLetter>, more: seq<DeadLetter>, maxSize: nat): nat {
    if |entries| + |more| <= Effective(maxSize) then 0 else |entries| + |more| - Effective(maxSize)
  }

  /** The queue without what was pushed out, and without the entry at place `place` of all that were pushed. */
  function KeptWithout(all: seq<DeadLetter>, evicted: nat, place: nat): seq<DeadLetter>
    requires evicted <= place < |all|
  {
    all[evicted..place] + all[place + 1..]
  }

  /**
  `requeue` publishes the entry at `index` and then removes whatever sits at `index`. If publishing adds `more` dead
  letters, that is the entry as many places further on as entries were pushed out: so the one it published if and only
  if the new dead letters fit in beside the old.
  */
  lemma RequeueHitsIffNoneEvicted(entries: seq<DeadLetter>, more: seq<DeadLetter>, maxSize: nat, index: nat)
    requires |entries| <= Effective(maxSize) && index < |entries|
    ensures var queue, evicted := PushedAll(entries, more, maxSize), Evicted(entries, more, maxSize);
            var place := index + evicted;
            && |queue| >= |entries| && place < |entries + more| && queue[index] == (entries + more)[place]
            && WithoutAt(queue, index) == KeptWithout(entries + more, evicted, place)
            && (place == index <==> |entries| + |more| <= Effective(maxSize))
  {
    PushedAllIsLast(entries, more, maxSize);
    var queue, evicted := PushedAll(entries, more, maxSize), Evicted(entries, more, maxSize);
    assert queue == (entries + more)[evicted..];
  }

  class DeadLetterQueue {
    var entries: seq<DeadLetter>
    const maxSize: nat

    ghost predicate Valid()
      reads this
    {
      |entries| <= Effective(maxSize)
    }

    constructor (maxSize: nat)
      ensures Valid() && entries == [] && this.maxSize == maxSize
    {
      this.maxSize := maxSize;
      entries := [];
    }

    method Push(entry: DeadLetter)
      requires Valid()
      modifies this
      ensures Valid() && entries == Pushed(old(entries), entry, maxSize)
    {
      if |entries| >= maxSize {
        entries := if entries == [] then [] else entries[1..];
      }
      entries := entries + [entry];
    }

    method Pop() returns (r: Option<DeadLetter>)
      requires Valid()
      modifies this
      ensures Valid()
      ensures r == if old(entries) == [] then None else Some(old(entries)[0])
      ensures entries == if old(entries) == [] then [] else old(entries)[1..]
    {
      if entries == [] {
        return None;
      }
      r := Some(entries[0]);
      entries := entries[1..];
    }

    /** `VecDeque::remove`, after the bounds check. */
    method RemoveAt(index: nat)
      requires Valid()
      modifies this
      ensures Valid()
      ensures entries == WithoutAt(old(entries), index)
    {
      if index < |entries| {
        entries := entries[..index] + entries[index + 1..];
      }
    }
  }
}
