/**
Runs of the blob store as steps over its whole state: chunk records and chunks, blob metadata and, for the
statements only, the bytes each live blob was made from (crates/nova-blob/src/manager.rs, gc.rs).
*/
module BlobRuns {
  import opened Outcomes
  import opened Digests
  import opened Chunks
  import opened Shelf
  import opened Blobs

  datatype State = State(shelf: Shelf, blobs: map<nat, BlobMetadata>, contents: map<nat, Bytes>)

  const EMPTY: State := State(Shelf(map[], map[]), map[], map[])

  datatype Step =
    | Created(id: nat, meta: BlobMetadata, data: Bytes, now: int)
    | Deleted(id: nat)
    | Expired(id: nat, now: int)
    | Swept(hashes: set<Bytes>)
    | Retimed(id: nat, expiresAt: int)

  /**
  One step. `Retimed` rewrites a live blob's expiry through the store handle. `delete_blob` drops chunks without
  forgetting their records; expiry forgets them, and only comes to a blob whose expiry has passed.
  */
  ghost predicate Next(digest: Digest, s: State, step: Step, t: State) {
    match step
    case Created(id, meta, data, now) =>
      && id !in s.blobs && Describes(digest, meta, data)
      && t == State(AddedAll(s.shelf, digest, Split(data, meta.chunkSize), now),
                    s.blobs[id := meta], s.contents[id := data])
    case Deleted(id) =>
      && id in s.blobs
      && t == State(DroppedAll(s.shelf, s.blobs[id].chunkHashes, false), s.blobs - {id}, s.contents - {id})
    case Expired(id, now) =>
      && id in s.blobs && s.blobs[id].expiresAt.Some? && s.blobs[id].expiresAt.value <= now
      && t == State(DroppedAll(s.shelf, s.blobs[id].chunkHashes, true), s.blobs - {id}, s.contents - {id})
    case Swept(hashes) =>
      && (forall hash :: hash in hashes ==> s.shelf.RefCount(hash) == 0)
      && t == s.(shelf := Shelf(s.shelf.records - hashes, s.shelf.chunks - hashes))
    case Retimed(id, expiresAt) =>
      && id in s.blobs
      && t == s.(blobs := s.blobs[id := s.blobs[id].(expiresAt := Some(expiresAt))])
  }

  ghost predicate Run(digest: Digest, trace: seq<State>, steps: seq<Step>) {
    && |trace| == |steps| + 1
    && forall i :: 0 <= i < |steps| ==> Next(digest, trace[i], steps[i], trace[i + 1])
  }

  // ---- All references of the live blobs ----

  ghost function AllRefs(blobs: map<nat, BlobMetadata>): multiset<Bytes> {
    if blobs == map[] then multiset{}
    else
      var id :| id in blobs;
      multiset(blobs[id].chunkHashes) + AllRefs(blobs - {id})
  }

  lemma {:induction false} AllRefsWithout(blobs: map<nat, BlobMetadata>, id: nat)
    requires id in blobs
    ensures AllRefs(blobs) == multiset(blobs[id].chunkHashes) + AllRefs(blobs - {id})
  {
    var first :| first in blobs && AllRefs(blobs) == multiset(blobs[first].chunkHashes) + AllRefs(blobs - {first});
    if first != id {
      AllRefsWithout(blobs - {first}, id);
      AllRefsWithout(blobs - {id}, first);
      assert blobs - {first} - {id} == blobs - {id} - {first};
    }
  }

  lemma AllRefsWith(blobs: map<nat, BlobMetadata>, id: nat, meta: BlobMetadata)
    requires id !in blobs
    ensures AllRefs(blobs[id := meta]) == multiset(meta.chunkHashes) + AllRefs(blobs)
  {
    AllRefsWithout(blobs[id := meta], id);
    assert blobs[id := meta] - {id} == blobs;
  }

  // ---- What every step keeps ----

  /** Each count is the number of references the live blobs hold, repetitions inside one blob included. */
  ghost predicate Conserved(s: State) {
    forall hash :: s.shelf.RefCount(hash) == AllRefs(s.blobs)[hash]
  }

  ghost predicate Consistent(digest: Digest, s: State) {
    && Conserved(s)
    && s.shelf.Sound(digest)
    && s.contents.Keys == s.blobs.Keys
    && forall id :: id in s.blobs ==> Describes(digest, s.blobs[id], s.contents[id])
  }

  /** Whatever is tracked is stored. */
  ghost predicate NoneMissing(s: State) {
    forall hash :: !s.shelf.Missing(hash)
  }

  lemma CreateConserves(digest: Digest, s: State, step: Step, t: State)
    requires Conserved(s) && Next(digest, s, step, t) && step.Created?
    ensures Conserved(t)
  {
    var chunks := Split(step.data, step.meta.chunkSize);
    AllRefsWith(s.blobs, step.id, step.meta);
    forall hash ensures t.shelf.RefCount(hash) == AllRefs(t.blobs)[hash] {
      AddedAllCounts(s.shelf, digest, chunks, step.now, hash);
    }
  }

  lemma CreateKeepsConsistent(digest: Digest, s: State, step: Step, t: State)
    requires Consistent(digest, s) && Next(digest, s, step, t) && step.Created?
    ensures Consistent(digest, t)
  {
    CreateConserves(digest, s, step, t);
    AddedAllStores(s.shelf, digest, Split(step.data, step.meta.chunkSize), step.now, []);
  }

  lemma LiveBlobIsCovered(s: State, id: nat)
    requires Conserved(s) && id in s.blobs
    ensures Covers(s.shelf, s.blobs[id].chunkHashes)
  {
    AllRefsWithout(s.blobs, id);
  }

  lemma DropConserves(digest: Digest, s: State, step: Step, t: State)
    requires Conserved(s) && Next(digest, s, step, t) && (step.Deleted? || step.Expired?)
    ensures Conserved(t)
  {
    LiveBlobIsCovered(s, step.id);
    AllRefsWithout(s.blobs, step.id);
    forall hash ensures t.shelf.RefCount(hash) == AllRefs(t.blobs)[hash] {
      DroppedAllCounts(s.shelf, s.blobs[step.id].chunkHashes, step.Expired?, hash);
    }
  }

  lemma DropKeepsConsistent(digest: Digest, s: State, step: Step, t: State)
    requires Consistent(digest, s) && Next(digest, s, step, t) && (step.Deleted? || step.Expired?)
    ensures Consistent(digest, t)
  {
    DropConserves(digest, s, step, t);
    LiveBlobIsCovered(s, step.id);
    DropKeepsSound(s.shelf, digest, s.blobs[step.id].chunkHashes, step.Expired?);
  }

  lemma SweepKeepsConsistent(digest: Digest, s: State, hashes: set<Bytes>, t: State)
    requires Consistent(digest, s) && Next(digest, s, Swept(hashes), t)
    ensures Consistent(digest, t)
  {}

  lemma RetimeConserves(s: State, id: nat, meta: BlobMetadata)
    requires Conserved(s) && id in s.blobs && meta.chunkHashes == s.blobs[id].chunkHashes
    ensures Conserved(s.(blobs := s.blobs[id := meta]))
  {
    var blobs := s.blobs[id := meta];
    AllRefsWithout(s.blobs, id);
    AllRefsWithout(blobs, id);
    assert s.blobs - {id} == blobs - {id};
  }

  lemma RetimeKeepsConsistent(digest: Digest, s: State, id: nat, expiresAt: int, t: State)
    requires Consistent(digest, s) && Next(digest, s, Retimed(id, expiresAt), t)
    ensures Consistent(digest, t)
  {
    RetimeConserves(s, id, s.blobs[id].(expiresAt := Some(expiresAt)));
  }

  /** Counts equal references after every step, whichever it is. */
  lemma NextKeepsConsistent(digest: Digest, s: State, step: Step, t: State)
    requires Consistent(digest, s) && Next(digest, s, step, t)
    ensures Consistent(digest, t)
  {
    match step {
      case Created(_, _, _, _) => CreateKeepsConsistent(digest, s, step, t);
      case Deleted(_) => DropKeepsConsistent(digest, s, step, t);
      case Expired(_, _) => DropKeepsConsistent(digest, s, step, t);
      case Swept(hashes) => SweepKeepsConsistent(digest, s, hashes, t);
      case Retimed(id, expiresAt) => RetimeKeepsConsistent(digest, s, id, expiresAt, t);
    }
  }

  /** The step takes the last reference to the hash. */
  ghost predicate TakesLast(s: State, step: Step, t: State, hash: Bytes) {
    && (step.Deleted? || step.Expired?) && step.id in s.blobs
    && hash in s.blobs[step.id].chunkHashes && AllRefs(t.blobs)[hash] == 0
  }

  /** A deletion makes a hash missing by taking its last reference; only the collector ends that. */
  lemma MissingAfter(digest: Digest, s: State, step: Step, t: State, hash: Bytes)
    requires Consistent(digest, s) && Next(digest, s, step, t)
    ensures t.shelf.Missing(hash) <==>
            && (s.shelf.Missing(hash) || (step.Deleted? && TakesLast(s, step, t, hash)))
            && !(step.Expired? && TakesLast(s, step, t, hash))
            && !(step.Swept? && hash in step.hashes)
  {
    match step {
      case Created(_, meta, data, now) =>
        AddedAllCounts(s.shelf, digest, Split(data, meta.chunkSize), now, hash);
        AddedAllStores(s.shelf, digest, Split(data, meta.chunkSize), now, hash);
      case Deleted(id) => DropMisses(digest, s, step, t, hash);
      case Expired(_, _) => DropMisses(digest, s, step, t, hash);
      case Swept(_) =>
      case Retimed(_, _) =>
    }
  }

  lemma DropMisses(digest: Digest, s: State, step: Step, t: State, hash: Bytes)
    requires Consistent(digest, s) && Next(digest, s, step, t) && (step.Deleted? || step.Expired?)
    ensures t.shelf.Missing(hash) <==> if TakesLast(s, step, t, hash) then step.Deleted? else s.shelf.Missing(hash)
  {
    var hashes := s.blobs[step.id].chunkHashes;
    LiveBlobIsCovered(s, step.id);
    DroppedAllCounts(s.shelf, hashes, step.Expired?, hash);
    DropConserves(digest, s, step, t);
    assert t.shelf.RefCount(hash) == AllRefs(t.blobs)[hash];
    assert hash in hashes <==> multiset(hashes)[hash] > 0;
  }

  /** Only `delete_blob` can leave a record behind whose chunk is gone. */
  lemma NextKeepsNoneMissing(digest: Digest, s: State, step: Step, t: State)
    requires Consistent(digest, s) && NoneMissing(s) && Next(digest, s, step, t) && !step.Deleted?
    ensures NoneMissing(t)
  {
    forall hash ensures !t.shelf.Missing(hash) {
      MissingAfter(digest, s, step, t, hash);
    }
  }

  // ---- Over whole runs ----

  /** Reference conservation: in every reachable state each count equals the references of the live blobs. */
  lemma {:induction false} RunsAreConsistent(digest: Digest, trace: seq<State>, steps: seq<Step>, i: nat)
    requires Run(digest, trace, steps) && Consistent(digest, trace[0]) && i < |trace|
    ensures Consistent(digest, trace[i])
  {
    if i > 0 {
      RunsAreConsistent(digest, trace, steps, i - 1);
      NextKeepsConsistent(digest, trace[i - 1], steps[i - 1], trace[i]);
    }
  }

  lemma EmptyIsConsistent(digest: Digest)
    ensures Consistent(digest, EMPTY) && NoneMissing(EMPTY)
  {}

  /** No release inside a drop finds a count that is already zero. */
  lemma ReleasesNeverSaturate(digest: Digest, s: State, id: nat, forget: bool, k: nat)
    requires Consistent(digest, s) && id in s.blobs && k < |s.blobs[id].chunkHashes|
    ensures var hashes := s.blobs[id].chunkHashes;
            DroppedAll(s.shelf, hashes[..k], forget).RefCount(hashes[k]) > 0
  {
    var hashes := s.blobs[id].chunkHashes;
    LiveBlobIsCovered(s, id);
    PrefixCounts(hashes, k);
    forall hash ensures multiset(hashes[..k])[hash] <= s.shelf.RefCount(hash) {
      assert multiset(hashes)[hash] <= s.shelf.RefCount(hash);
    }
    DroppedAllCounts(s.shelf, hashes[..k], forget, hashes[k]);
  }

  lemma PrefixCounts(hashes: seq<Bytes>, k: nat)
    requires k < |hashes|
    ensures forall hash :: multiset(hashes[..k])[hash] <= multiset(hashes)[hash]
    ensures multiset(hashes[..k])[hashes[k]] < multiset(hashes)[hashes[k]]
  {
    assert hashes == hashes[..k] + [hashes[k]] + hashes[k + 1..];
  }

  /** The sweep takes nothing a live blob refers to, and no stored chunk at all. */
  lemma SweepIsSafe(digest: Digest, s: State, hashes: set<Bytes>, t: State, id: nat, k: nat)
    requires Consistent(digest, s) && Next(digest, s, Swept(hashes), t)
    requires id in s.blobs && k < |s.blobs[id].chunkHashes|
    ensures s.blobs[id].chunkHashes[k] !in hashes && t.shelf.chunks == s.shelf.chunks
  {
    AllRefsWithout(s.blobs, id);
    assert s.blobs[id].chunkHashes[k] in multiset(s.blobs[id].chunkHashes);
    assert s.shelf.RefCount(s.blobs[id].chunkHashes[k]) > 0;
  }

  /** Expiry and deletion of one blob leave every chunk of every other live blob in place, byte for byte. */
  lemma DropSparesOthers(digest: Digest, s: State, id: nat, forget: bool, other: nat, k: nat)
    requires Consistent(digest, s) && id in s.blobs && other in s.blobs && other != id
    requires k < |s.blobs[other].chunkHashes|
    ensures var after, hash := DroppedAll(s.shelf, s.blobs[id].chunkHashes, forget), s.blobs[other].chunkHashes[k];
            && after.RefCount(hash) > 0
            && (hash in s.shelf.chunks ==> hash in after.chunks && after.chunks[hash] == s.shelf.chunks[hash])
  {
    var hash := s.blobs[other].chunkHashes[k];
    LiveBlobIsCovered(s, id);
    DroppedAllCounts(s.shelf, s.blobs[id].chunkHashes, forget, hash);
    AllRefsWithout(s.blobs, id);
    AllRefsWithout(s.blobs - {id}, other);
    assert hash in multiset(s.blobs[other].chunkHashes);
  }

  lemma {:induction false} RunsWithoutDeleteMissNothing(digest: Digest, trace: seq<State>, steps: seq<Step>, i: nat)
    requires Run(digest, trace, steps) && trace[0] == EMPTY && i < |trace|
    requires forall k :: 0 <= k < |steps| ==> !steps[k].Deleted?
    ensures NoneMissing(trace[i])
    ensures forall hash :: hash in trace[i].shelf.records <==> hash in trace[i].shelf.chunks
  {
    EmptyIsConsistent(digest);
    RunsAreConsistent(digest, trace, steps, i);
    var shelf := trace[i].shelf;
    assert forall hash :: hash in shelf.records ==> shelf.Missing(hash) || hash in shelf.chunks;
    if i > 0 {
      RunsWithoutDeleteMissNothing(digest, trace, steps, i - 1);
      RunsAreConsistent(digest, trace, steps, i - 1);
      NextKeepsNoneMissing(digest, trace[i - 1], steps[i - 1], trace[i]);
    }
  }

  // ---- New blobs ----

  /** None of the hashes is tracked without being stored. */
  ghost predicate NoneMissingOf(s: State, hashes: seq<Bytes>) {
    forall k :: 0 <= k < |hashes| ==> !s.shelf.Missing(hashes[k])
  }

  /** A new blob can be read exactly when none of its chunks was tracked without being stored. */
  lemma NewBlobReadableIff(digest: Digest, s: State, step: Step, t: State)
    requires Consistent(digest, s) && Next(digest, s, step, t) && step.Created?
    ensures AllStored(t.shelf.chunks, step.meta.chunkHashes) <==> NoneMissingOf(s, step.meta.chunkHashes)
  {
    var chunks, hashes := Split(step.data, step.meta.chunkSize), step.meta.chunkHashes;
    forall k | 0 <= k < |hashes| ensures hashes[k] in t.shelf.chunks <==> !s.shelf.Missing(hashes[k]) {
      AddedAllStores(s.shelf, digest, chunks, step.now, hashes[k]);
    }
  }

  // ---- Reading live blobs back ----

  /** The blob has the same chunks and the same bytes in both states, and the chunk is stored in both or in neither. */
  ghost predicate SameFor(s: State, t: State, id: nat, hash: Bytes)
    requires id in s.blobs && id in t.blobs
  {
    && t.blobs[id].chunkHashes == s.blobs[id].chunkHashes
    && id in s.contents && id in t.contents && t.contents[id] == s.contents[id]
    && (hash in s.blobs[id].chunkHashes ==> (hash in t.shelf.chunks <==> hash in s.shelf.chunks))
  }

  /** While a blob lives, whatever else happens, each of its chunks stays stored, or stays not stored. */
  lemma StatusKept(digest: Digest, s: State, step: Step, t: State, id: nat, hash: Bytes)
    requires Consistent(digest, s) && Next(digest, s, step, t) && id in s.blobs && id in t.blobs
    ensures SameFor(s, t, id, hash)
  {
    if hash in s.blobs[id].chunkHashes {
      ReferencedByBlob(s, id, hash);
      if step.Deleted? || step.Expired? {
        ReferencedByBlob(t, id, hash);
        DropKeepsStatus(digest, s, step, t, hash);
      } else if step.Created? {
        AddedAllStores(s.shelf, digest, Split(step.data, step.meta.chunkSize), step.now, hash);
      }
    }
  }

  lemma ReferencedByBlob(s: State, id: nat, hash: Bytes)
    requires id in s.blobs && hash in s.blobs[id].chunkHashes
    ensures AllRefs(s.blobs)[hash] > 0
    ensures Conserved(s) ==> s.shelf.RefCount(hash) > 0
  {
    AllRefsWithout(s.blobs, id);
    assert hash in multiset(s.blobs[id].chunkHashes);
  }

  lemma DropKeepsStatus(digest: Digest, s: State, step: Step, t: State, hash: Bytes)
    requires Consistent(digest, s) && Next(digest, s, step, t) && (step.Deleted? || step.Expired?)
    requires AllRefs(t.blobs)[hash] > 0
    ensures hash in t.shelf.chunks <==> hash in s.shelf.chunks
  {
    LiveBlobIsCovered(s, step.id);
    DroppedAllCounts(s.shelf, s.blobs[step.id].chunkHashes, step.Expired?, hash);
    DropConserves(digest, s, step, t);
  }

  /** The blob was created by step `birth` and is live in every state from then up to state `i`. */
  ghost predicate LivesSince(trace: seq<State>, steps: seq<Step>, birth: nat, i: nat, id: nat) {
    && birth < |steps| && birth < i < |trace| && steps[birth].Created? && steps[birth].id == id
    && forall j :: birth < j <= i ==> id in trace[j].blobs
  }

  ghost predicate AppearsByCreation(s: State, step: Step, t: State, id: nat) {
    id in t.blobs && id !in s.blobs ==> step.Created? && step.id == id
  }

  lemma {:induction false} BirthBefore(trace: seq<State>, steps: seq<Step>, i: nat, id: nat) returns (birth: nat)
    requires |trace| == |steps| + 1 && i < |trace| && id in trace[i].blobs && id !in trace[0].blobs
    requires forall j :: 0 <= j < |steps| ==> AppearsByCreation(trace[j], steps[j], trace[j + 1], id)
    ensures LivesSince(trace, steps, birth, i, id)
  {
    birth := i - 1;
    assert AppearsByCreation(trace[birth], steps[birth], trace[birth + 1], id);
    if id in trace[birth].blobs {
      birth := BirthBefore(trace, steps, i - 1, id);
    }
  }

  /** Every blob live in a run from the empty store has a step that created it. */
  lemma LiveBlobWasCreated(digest: Digest, trace: seq<State>, steps: seq<Step>, i: nat, id: nat) returns (birth: nat)
    requires Run(digest, trace, steps) && trace[0] == EMPTY && i < |trace| && id in trace[i].blobs
    ensures LivesSince(trace, steps, birth, i, id)
  {
    forall j | 0 <= j < |steps| ensures AppearsByCreation(trace[j], steps[j], trace[j + 1], id) {
      assert Next(digest, trace[j], steps[j], trace[j + 1]);
    }
    birth := BirthBefore(trace, steps, i, id);
  }

  lemma {:induction false} SameAlong(trace: seq<State>, from: nat, i: nat, id: nat, hash: Bytes)
    requires from <= i < |trace| && forall j :: from <= j <= i ==> id in trace[j].blobs && id in trace[j].contents
    requires forall j :: from <= j < i ==> SameFor(trace[j], trace[j + 1], id, hash)
    ensures SameFor(trace[from], trace[i], id, hash)
    decreases i
  {
    if from < i {
      SameAlong(trace, from, i - 1, id, hash);
      assert SameFor(trace[i - 1], trace[i - 1 + 1], id, hash);
    }
  }

  lemma LivesUnchanged(digest: Digest, trace: seq<State>, steps: seq<Step>, birth: nat, i: nat, id: nat, hash: Bytes)
    requires Run(digest, trace, steps) && Consistent(digest, trace[0]) && LivesSince(trace, steps, birth, i, id)
    ensures SameFor(trace[birth + 1], trace[i], id, hash)
  {
    forall j | birth < j <= i ensures id in trace[j].blobs && id in trace[j].contents {
      RunsAreConsistent(digest, trace, steps, j);
    }
    forall j | birth < j < i ensures SameFor(trace[j], trace[j + 1], id, hash) {
      RunsAreConsistent(digest, trace, steps, j);
      StatusKept(digest, trace[j], steps[j], trace[j + 1], id, hash);
    }
    SameAlong(trace, birth + 1, i, id, hash);
  }

  /**
  Over every run, deletions included: all chunks of a live blob are stored if and only if none of them was tracked
  without being stored when the blob was created.
  */
  lemma LiveBlobStoredIff(digest: Digest, trace: seq<State>, steps: seq<Step>, birth: nat, i: nat, id: nat)
    requires Run(digest, trace, steps) && Consistent(digest, trace[0]) && LivesSince(trace, steps, birth, i, id)
    ensures trace[i].blobs[id].chunkHashes == steps[birth].meta.chunkHashes
    ensures id in trace[i].contents && trace[i].contents[id] == steps[birth].data
    ensures AllStored(trace[i].shelf.chunks, trace[i].blobs[id].chunkHashes)
            <==> NoneMissingOf(trace[birth], steps[birth].meta.chunkHashes)
  {
    var hashes := steps[birth].meta.chunkHashes;
    RunsAreConsistent(digest, trace, steps, birth);
    assert Next(digest, trace[birth], steps[birth], trace[birth + 1]);
    NewBlobReadableIff(digest, trace[birth], steps[birth], trace[birth + 1]);
    LivesUnchanged(digest, trace, steps, birth, i, id, []);
    forall k | 0 <= k < |hashes|
      ensures hashes[k] in trace[i].shelf.chunks <==> hashes[k] in trace[birth + 1].shelf.chunks
    {
      LivesUnchanged(digest, trace, steps, birth, i, id, hashes[k]);
    }
  }

  /**
  Availability. Over every run from the empty store, deletions included, a live blob reads back as uploaded, collisions
  aside, if none of its chunks was tracked without being stored when it was created, and is not found otherwise.
  */
  lemma LiveBlobsReadBack(digest: Digest, trace: seq<State>, steps: seq<Step>, i: nat, id: nat, r: Result<Bytes>)
    returns (birth: nat, x: Bytes, y: Bytes)
    requires Run(digest, trace, steps) && trace[0] == EMPTY && i < |trace| && id in trace[i].blobs
    requires DownloadAnswers(digest, trace[i].shelf.chunks, trace[i].blobs[id], r)
    ensures LivesSince(trace, steps, birth, i, id)
    ensures || r == (if NoneMissingOf(trace[birth], steps[birth].meta.chunkHashes) then Ok(steps[birth].data)
                     else Err(NotFound))
            || Collision(digest, x, y)
  {
    EmptyIsConsistent(digest);
    RunsAreConsistent(digest, trace, steps, i);
    birth := LiveBlobWasCreated(digest, trace, steps, i, id);
    LiveBlobStoredIff(digest, trace, steps, birth, i, id);
    x, y := ReadableIffStored(digest, trace[i].shelf.chunks, trace[i].blobs[id], trace[i].contents[id], r);
  }

  /** Without deletions no chunk is ever missing, so every live blob has all its chunks. */
  lemma AllStoredWithoutDeletions(digest: Digest, trace: seq<State>, steps: seq<Step>, i: nat, id: nat)
    requires Run(digest, trace, steps) && trace[0] == EMPTY && i < |trace| && id in trace[i].blobs
    requires forall k :: 0 <= k < |steps| ==> !steps[k].Deleted?
    ensures AllStored(trace[i].shelf.chunks, trace[i].blobs[id].chunkHashes)
  {
    EmptyIsConsistent(digest);
    var birth := LiveBlobWasCreated(digest, trace, steps, i, id);
    RunsWithoutDeleteMissNothing(digest, trace, steps, birth);
    LiveBlobStoredIff(digest, trace, steps, birth, i, id);
  }

  // ---- Expiry ----

  /** The blob has no expiry, or one that is not before `due`. */
  ghost predicate NotDueBefore(s: State, id: nat, due: int) {
    id in s.blobs && (s.blobs[id].expiresAt.None? || s.blobs[id].expiresAt.value >= due)
  }

  /** The step neither deletes the blob, nor gives it an expiry before `due`, nor is an expiry at `due` or later. */
  ghost predicate SparesUntil(step: Step, id: nat, due: int) {
    match step
    case Deleted(other) => other != id
    case Expired(_, now) => now < due
    case Retimed(other, expiresAt) => other == id ==> expiresAt >= due
    case _ => true
  }

  /** Over every run no expiry takes a blob away before its time: unless deleted it lives on. */
  lemma {:induction false} LivesUntilDue(digest: Digest, trace: seq<State>, steps: seq<Step>, i: nat, j: nat, id: nat,
                                         due: int)
    requires Run(digest, trace, steps) && i <= j < |trace| && NotDueBefore(trace[i], id, due)
    requires forall k :: i <= k < j ==> SparesUntil(steps[k], id, due)
    ensures NotDueBefore(trace[j], id, due)
    decreases j
  {
    if i < j {
      LivesUntilDue(digest, trace, steps, i, j - 1, id, due);
      StaysNotDue(digest, trace[j - 1], steps[j - 1], trace[j], id, due);
    }
  }

  lemma StaysNotDue(digest: Digest, s: State, step: Step, t: State, id: nat, due: int)
    requires Next(digest, s, step, t) && NotDueBefore(s, id, due) && SparesUntil(step, id, due)
    ensures NotDueBefore(t, id, due)
  {}

  // ---- A collector pass ----

  /** Those of the blobs that are live and whose expiry has come expire, one after the other. */
  ghost function ExpireAll(s: State, ids: seq<nat>, now: int): State {
    if ids == [] then s
    else
      var t, id := ExpireAll(s, ids[..|ids| - 1], now), ids[|ids| - 1];
      if id !in t.blobs || t.blobs[id].expiresAt.None? || t.blobs[id].expiresAt.value > now then t
      else State(DroppedAll(t.shelf, t.blobs[id].chunkHashes, true), t.blobs - {id}, t.contents - {id})
  }

  lemma {:induction false} ExpireAllConcat(s: State, a: seq<nat>, b: seq<nat>, now: int)
    ensures ExpireAll(s, a + b, now) == ExpireAll(ExpireAll(s, a, now), b, now)
    decreases |b|
  {
    if b == [] {
      assert a + b == a;
    } else {
      assert (a + b)[..|a + b| - 1] == a + b[..|b| - 1];
      ExpireAllConcat(s, a, b[..|b| - 1], now);
    }
  }

  /** Expiring any blobs keeps the counts right, keeps what is readable readable, and makes no chunk missing. */
  lemma {:induction false} ExpireAllKeeps(digest: Digest, s: State, ids: seq<nat>, now: int)
    requires Consistent(digest, s)
    ensures Consistent(digest, ExpireAll(s, ids, now))
    ensures s.shelf.Available() ==> ExpireAll(s, ids, now).shelf.Available()
    ensures forall hash :: ExpireAll(s, ids, now).shelf.Missing(hash) ==> s.shelf.Missing(hash)
    decreases |ids|
  {
    if ids != [] {
      var t, id := ExpireAll(s, ids[..|ids| - 1], now), ids[|ids| - 1];
      ExpireAllKeeps(digest, s, ids[..|ids| - 1], now);
      if ExpireAll(s, ids, now) != t {
        ExpireOneKeeps(digest, t, id, now, ExpireAll(s, ids, now));
      }
    }
  }

  lemma ExpireOneKeeps(digest: Digest, s: State, id: nat, now: int, t: State)
    requires Consistent(digest, s) && Next(digest, s, Expired(id, now), t)
    ensures Consistent(digest, t)
    ensures s.shelf.Available() ==> t.shelf.Available()
    ensures forall hash :: t.shelf.Missing(hash) ==> s.shelf.Missing(hash)
  {
    NextKeepsConsistent(digest, s, Expired(id, now), t);
    LiveBlobIsCovered(s, id);
    DropKeepsSound(s.shelf, digest, s.blobs[id].chunkHashes, true);
    forall hash | t.shelf.Missing(hash) ensures s.shelf.Missing(hash) {
      ForgettingAddsNoMissing(s.shelf, s.blobs[id].chunkHashes, hash);
    }
  }

  /** A pass of the collector keeps all that, and forgets every record it swept. */
  lemma CollectorPassKeeps(digest: Digest, s: State, swept: set<Bytes>, t: State, ids: seq<nat>, now: int)
    requires Consistent(digest, s) && Next(digest, s, Swept(swept), t)
    ensures var u := ExpireAll(t, ids, now);
            && Consistent(digest, u)
            && (s.shelf.Available() ==> u.shelf.Available())
            && (NoneMissing(s) ==> NoneMissing(u))
            && forall hash :: u.shelf.Missing(hash) ==> s.shelf.Missing(hash) && hash !in swept
  {
    NextKeepsConsistent(digest, s, Swept(swept), t);
    assert t.shelf.chunks == s.shelf.chunks;
    assert s.shelf.Available() ==> t.shelf.Available();
    ExpireAllKeeps(digest, t, ids, now);
    forall hash ensures t.shelf.Missing(hash) ==> s.shelf.Missing(hash) && hash !in swept {}
  }

  // ---- Deletion ----

  /** Deleted and created again, a blob can be read exactly if no chunk was missing and others still hold them all. */
  lemma RecreatedReadableIff(digest: Digest, s: State, id: nat, t: State, again: Step, u: State)
    requires Consistent(digest, s)
    requires Next(digest, s, Deleted(id), t) && again.Created? && Next(digest, t, again, u)
    requires again.meta.chunkHashes == s.blobs[id].chunkHashes
    ensures AllStored(u.shelf.chunks, again.meta.chunkHashes) <==>
            forall k :: 0 <= k < |again.meta.chunkHashes| ==>
              !s.shelf.Missing(again.meta.chunkHashes[k]) && AllRefs(t.blobs)[again.meta.chunkHashes[k]] > 0
  {
    var hashes := again.meta.chunkHashes;
    NextKeepsConsistent(digest, s, Deleted(id), t);
    NewBlobReadableIff(digest, t, again, u);
    forall k | 0 <= k < |hashes|
      ensures t.shelf.Missing(hashes[k]) <==> s.shelf.Missing(hashes[k]) || AllRefs(t.blobs)[hashes[k]] == 0
    {
      MissingAfter(digest, s, Deleted(id), t, hashes[k]);
    }
  }

  /**
  The run starts with creating a blob, whose expiry may then be rewritten any number of times, dropping it with step `k`
  in one of the two ways, and creating one with the same chunks.
  */
  ghost predicate CreatesAgain(digest: Digest, trace: seq<State>, steps: seq<Step>, k: nat) {
    && Run(digest, trace, steps) && trace[0] == EMPTY && 1 <= k < |steps| - 1
    && steps[0].Created? && (forall j :: 0 < j < k ==> steps[j].Retimed?)
    && (steps[k].Deleted? || steps[k].Expired?) && steps[k].id == steps[0].id
    && steps[k + 1].Created? && steps[k + 1].meta.chunkHashes == steps[0].meta.chunkHashes
  }

  /**
  The code as it stands: create, delete, create again. In no later state of the run can the second blob be read. With
  the collector's way of dropping instead, it can be read as long as it lives.
  */
  lemma RecreatedBlobIsLost(digest: Digest, trace: seq<State>, steps: seq<Step>, k: nat, i: nat)
    requires CreatesAgain(digest, trace, steps, k) && LivesSince(trace, steps, k + 1, i, steps[k + 1].id)
    ensures AllStored(trace[i].shelf.chunks, trace[i].blobs[steps[k + 1].id].chunkHashes) <==> steps[k].Expired?
  {
    var hashes := steps[0].meta.chunkHashes;
    EmptyIsConsistent(digest);
    LiveBlobStoredIff(digest, trace, steps, k + 1, i, steps[k + 1].id);
    NotEmpty(digest, trace, steps, k);
    forall n | 0 <= n < |hashes| ensures trace[k + 1].shelf.Missing(hashes[n]) <==> steps[k].Deleted? {
      MissingAfterDrop(digest, trace, steps, k, hashes[n]);
    }
    assert trace[k + 1].shelf.Missing(hashes[0]) <==> steps[k].Deleted?;
    assert NoneMissingOf(trace[k + 1], steps[k + 1].meta.chunkHashes) <==> !steps[k].Deleted?;
  }

  lemma NotEmpty(digest: Digest, trace: seq<State>, steps: seq<Step>, k: nat)
    requires CreatesAgain(digest, trace, steps, k)
    ensures steps[0].meta.chunkHashes != []
  {
    OnlyOneBlob(digest, trace, steps, k);
  }

  lemma MissingAfterDrop(digest: Digest, trace: seq<State>, steps: seq<Step>, k: nat, hash: Bytes)
    requires CreatesAgain(digest, trace, steps, k)
    ensures trace[k + 1].shelf.Missing(hash) <==> steps[k].Deleted? && hash in steps[0].meta.chunkHashes
  {
    EmptyIsConsistent(digest);
    RunsAreConsistent(digest, trace, steps, k);
    OnlyOneBlob(digest, trace, steps, k);
    assert Next(digest, trace[k], steps[k], trace[k + 1]);
    DropOfOnlyBlob(digest, trace[k], steps[k], trace[k + 1], hash);
  }

  /** There is one blob, of these chunks, and nothing is missing. */
  ghost predicate OnlyBlob(s: State, id: nat, hashes: seq<Bytes>) {
    s.blobs.Keys == {id} && s.blobs[id].chunkHashes == hashes != [] && NoneMissing(s)
  }

  lemma FirstIsOnlyBlob(digest: Digest, step: Step, t: State)
    requires step.Created? && Next(digest, EMPTY, step, t)
    ensures OnlyBlob(t, step.id, step.meta.chunkHashes)
  {
    EmptyIsConsistent(digest);
    NextKeepsNoneMissing(digest, EMPTY, step, t);
    assert Split(step.data, step.meta.chunkSize) != [];
  }

  lemma RetimedIsOnlyBlob(digest: Digest, s: State, step: Step, t: State, id: nat, hashes: seq<Bytes>)
    requires OnlyBlob(s, id, hashes) && step.Retimed? && Next(digest, s, step, t)
    ensures OnlyBlob(t, id, hashes)
  {}

  lemma {:induction false} OnlyOneBlob(digest: Digest, trace: seq<State>, steps: seq<Step>, i: nat)
    requires Run(digest, trace, steps) && trace[0] == EMPTY && 1 <= i <= |steps| && steps[0].Created?
    requires forall j :: 0 < j < i ==> steps[j].Retimed?
    ensures OnlyBlob(trace[i], steps[0].id, steps[0].meta.chunkHashes)
  {
    if i == 1 {
      FirstIsOnlyBlob(digest, steps[0], trace[0 + 1]);
    } else {
      OnlyOneBlob(digest, trace, steps, i - 1);
      RetimedIsOnlyBlob(digest, trace[i - 1], steps[i - 1], trace[i - 1 + 1], steps[0].id, steps[0].meta.chunkHashes);
    }
  }

  lemma DropOfOnlyBlob(digest: Digest, s: State, step: Step, t: State, hash: Bytes)
    requires Consistent(digest, s) && NoneMissing(s) && (step.Deleted? || step.Expired?)
    requires s.blobs.Keys == {step.id} && Next(digest, s, step, t)
    ensures t.shelf.Missing(hash) <==> step.Deleted? && hash in s.blobs[step.id].chunkHashes
  {
    assert t.blobs == map[];
    MissingAfter(digest, s, step, t, hash);
  }

  lemma CreateFirst(digest: Digest, s: State, id: nat, data: Bytes, chunkSize: nat) returns (step: Step, t: State)
    requires chunkSize > 0 && s.blobs == map[] && s.contents == map[]
    ensures step.Created? && step.id == id && step.data == data && Next(digest, s, step, t)
    ensures step.meta == MetaOf(digest, data, chunkSize, id, "", None, 0)
    ensures t.blobs.Keys == t.contents.Keys == {id}
  {
    step := Created(id, MetaOf(digest, data, chunkSize, id, "", None, 0), data, 0);
    t := State(AddedAll(s.shelf, digest, Split(data, chunkSize), 0), map[id := step.meta], map[id := data]);
  }

  lemma DropOnlyBlob(digest: Digest, s: State, id: nat, expire: bool)
    returns (retime: Step, t: State, drop: Step, u: State)
    requires s.blobs.Keys == s.contents.Keys == {id}
    ensures retime == Retimed(id, 0) && drop == if expire then Expired(id, 0) else Deleted(id)
    ensures Next(digest, s, retime, t) && Next(digest, t, drop, u) && u.blobs == map[] && u.contents == map[]
  {
    retime, drop := Retimed(id, 0), if expire then Expired(id, 0) else Deleted(id);
    t := s.(blobs := s.blobs[id := s.blobs[id].(expiresAt := Some(0))]);
    u := State(DroppedAll(t.shelf, t.blobs[id].chunkHashes, expire), map[], map[]);
    assert t.blobs - {id} == map[] && t.contents - {id} == map[];
  }

  lemma RunOfFour(digest: Digest, a: State, first: Step, b: State, second: Step, c: State, third: Step, d: State,
                  fourth: Step, e: State)
    returns (trace: seq<State>, steps: seq<Step>)
    requires Next(digest, a, first, b) && Next(digest, b, second, c)
    requires Next(digest, c, third, d) && Next(digest, d, fourth, e)
    ensures trace == [a, b, c, d, e] && steps == [first, second, third, fourth] && Run(digest, trace, steps)
  {
    trace, steps := [a, b, c, d, e], [first, second, third, fourth];
  }

  /** Such runs exist for any data and either way of dropping. */
  lemma SomeRunCreatesAgain(digest: Digest, data: Bytes, chunkSize: nat, expire: bool)
    returns (trace: seq<State>, steps: seq<Step>)
    requires chunkSize > 0
    ensures CreatesAgain(digest, trace, steps, 2) && LivesSince(trace, steps, 3, 4, steps[3].id)
    ensures steps[0].data == steps[3].data == data && (steps[2].Expired? <==> expire)
    ensures AllStored(trace[4].shelf.chunks, trace[4].blobs[steps[3].id].chunkHashes) <==> expire
  {
    var first, one := CreateFirst(digest, EMPTY, 1, data, chunkSize);
    var retime, two, drop, three := DropOnlyBlob(digest, one, 1, expire);
    var again, four := CreateFirst(digest, three, 2, data, chunkSize);
    trace, steps := RunOfFour(digest, EMPTY, first, one, retime, two, drop, three, again, four);
    RecreatedBlobIsLost(digest, trace, steps, 2, 4);
  }
}
