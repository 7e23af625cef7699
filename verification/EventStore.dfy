/** The bounded event log (crates/nova-event/src/store.rs), with appends one after the other. */
module EventStore {
  import opened Outcomes
  import opened Digests
  import opened Numbers

  datatype Event = Event(
    id: nat,
    eventType: seq<string>,
    timestamp: nat,
    orderingKey: Option<string>,
    payload: Bytes,
    persistent: bool)

  datatype StoredEvent = StoredEvent(
    offset: nat,
    eventId: nat,
    eventType: seq<string>,
    timestamp: nat,
    orderingKey: Option<string>,
    payload: Bytes)

  function Stored(offset: nat, event: Event): StoredEvent {
    StoredEvent(offset, event.id, event.eventType, event.timestamp, event.orderingKey, event.payload)
  }

  /** The first offset a log of `length` entries still retains. */
  function FirstRetained(length: nat, maxEntries: nat): (first: nat)
    ensures first + Min(length, maxEntries) == length
  {
    if length <= maxEntries then 0 else length - maxEntries
  }

  ghost predicate Numbered(log: seq<StoredEvent>) {
    forall i :: 0 <= i < |log| ==> log[i].offset == i
  }

  /** What a scan of the whole log from `offset` would return, had everything from `first` on been kept. */
  function Page(log: seq<StoredEvent>, first: nat, offset: nat, limit: nat): seq<StoredEvent> {
    var from := if offset < first then first else offset;
    if from >= |log| then [] else if from + limit <= |log| then log[from..from + limit] else log[from..]
  }

  /** A page holds the events from its start on, one after the other, as many as the limit allows or there are. */
  ghost predicate PagesFrom(log: seq<StoredEvent>, start: nat, limit: nat, page: seq<StoredEvent>) {
    && |page| <= limit && (|page| < limit ==> start + |page| >= |log|)
    && forall i :: 0 <= i < |page| ==> start + i < |log| && page[i] == log[start + i]
  }

  lemma PageIsFrom(log: seq<StoredEvent>, first: nat, offset: nat, limit: nat)
    ensures PagesFrom(log, if offset < first then first else offset, limit, Page(log, first, offset, limit))
  {}

  /** The first retained event at or past `offset` is the one a scan of the full log would start with. */
  lemma ScanStart(log: seq<StoredEvent>, first: nat, events: seq<StoredEvent>, offset: nat, start: nat)
    requires Numbered(log) && first <= |log| && events == log[first..] && start <= |events|
    requires forall i :: 0 <= i < start ==> events[i].offset < offset
    requires start < |events| ==> events[start].offset >= offset
    ensures if start < |events| then first + start == if offset < first then first else offset
            else |log| <= offset || |log| <= first
  {
    if start > 0 {
      assert events[start - 1] == log[first + start - 1];
    }
    if start < |events| {
      assert events[start] == log[first + start];
    }
  }

  lemma PageIsStretch(log: seq<StoredEvent>, first: nat, events: seq<StoredEvent>, offset: nat, start: nat, limit: nat)
    requires Numbered(log) && first <= |log| && events == log[first..] && start <= |events|
    requires forall i :: 0 <= i < start ==> events[i].offset < offset
    requires start < |events| ==> events[start].offset >= offset
    ensures Page(log, first, offset, limit) ==
      if start == |events| then []
      else if start + limit <= |events| then events[start..start + limit] else events[start..]
  {
    ScanStart(log, first, events, offset, start);
    if start < |events| && start + limit <= |events| {
      assert events[start..start + limit] == log[first + start..first + start + limit];
    }
  }

  class EventStore {
    var events: seq<StoredEvent>
    var nextOffset: nat
    const maxEntries: nat
    /** Everything ever appended. */
    ghost var log: seq<StoredEvent>

    /** The store is the end of the full log, as much of it as fits. */
    ghost predicate Valid()
      reads this
    {
      && nextOffset == |log| && Numbered(log)
      && events == log[FirstRetained(|log|, maxEntries)..]
    }

    constructor (maxEntries: nat)
      ensures Valid() && log == [] && this.maxEntries == maxEntries
    {
      this.maxEntries := maxEntries;
      events, nextOffset, log := [], 0, [];
    }

    method Append(event: Event) returns (offset: nat)
      requires Valid()
      modifies this
      ensures Valid()
      ensures offset == |old(log)| && log == old(log) + [Stored(offset, event)]
      ensures var entry := log[offset];
              && entry.offset == offset && entry.eventId == event.id && entry.eventType == event.eventType
              && entry.timestamp == event.timestamp && entry.orderingKey == event.orderingKey
              && entry.payload == event.payload
      ensures |events| == Min(|log|, maxEntries) && events == log[|log| - |events|..]
    {
      offset := nextOffset;
      nextOffset := nextOffset + 1;
      var stored := Stored(offset, event);
      events := events + [stored];
      log := log + [stored];
      if |events| > maxEntries {
        var excess := |events| - maxEntries;
        events := events[excess..];
      }
    }

    /** Offsets, not positions, say where a scan starts; it returns a stretch of the full log. */
    method ScanFrom(offset: nat, limit: nat) returns (page: seq<StoredEvent>)
      requires Valid()
      ensures page == Page(log, FirstRetained(|log|, maxEntries), offset, limit)
    {
      var start := 0;
      while start < |events| && events[start].offset < offset
        invariant start <= |events|
        invariant forall i :: 0 <= i < start ==> events[i].offset < offset
      {
        start := start + 1;
      }
      PageIsStretch(log, FirstRetained(|log|, maxEntries), events, offset, start, limit);
      if start >= |events| {
        return [];
      }
      var end := if start + limit <= |events| then start + limit else |events|;
      page := events[start..end];
    }

    /** Zero both before and after the first append. */
    function LatestOffset(): (offset: nat)
      requires Valid()
      reads this
      ensures offset == if log == [] then 0 else log[|log| - 1].offset
    {
      if nextOffset == 0 then 0 else nextOffset - 1
    }
  }
}
