/**
The blob manager, its deduplication engine and its garbage collector
(crates/nova-blob/src/manager.rs, dedup.rs, gc.rs). Each operation is tied to the steps of BlobRuns.
Storage is infallible; clock readings, new ids, name validation and quota verdicts are parameters.
*/
module BlobManagement {
  import opened Outcomes
  import opened Numbers
  import opened Digests
  import opened Chunks
  import opened Shelf
  import opened Blobs
  import opened BlobRuns
  import opened Uploads
  import Merkle


  ghost predicate FitsI64(n: int) {
    -0x8000_0000_0000_0000 <= n < 0x8000_0000_0000_0000
  }

  function AsU64(n: int): nat {
    n % U64
  }

  class BlobStore {
    var chunks: map<Bytes, Bytes>
    var blobs: map<nat, BlobMetadata>
    var namespaces: set<string>
    /** The bytes each live blob was made from. */
    ghost var contents: map<nat, Bytes>

    constructor ()
      ensures chunks == map[] && blobs == map[] && namespaces == {} && contents == map[]
    {
      chunks, blobs, namespaces, contents := map[], map[], {}, map[];
    }
  }

  class DeduplicationEngine {
    var records: map<Bytes, ChunkRecord>

    constructor ()
      ensures records == map[]
    {
      records := map[];
    }

    /** Answers whether the hash was tracked already. */
    method RecordChunk(hash: Bytes, size: nat, now: int) returns (duplicate: bool)
      modifies this
      ensures records == Recorded(old(records), hash, size, now)
      ensures duplicate <==> hash in old(records)
      ensures records.Keys == old(records.Keys) + {hash}
      ensures !duplicate ==> records[hash] == ChunkRecord(size, 1, now)
      ensures duplicate ==>
                var before := old(records)[hash];
                && records[hash].refCount == before.refCount + 1
                && records[hash].size == before.size && records[hash].createdAt == before.createdAt
    {
      if hash in records {
        records := records[hash := records[hash].(refCount := records[hash].refCount + 1)];
        return true;
      }
      records := records[hash := ChunkRecord(size, 1, now)];
      return false;
    }

    method ReleaseChunk(hash: Bytes) returns (refCount: nat)
      modifies this
      ensures records == Released(old(records), hash)
      ensures refCount == if hash in records then records[hash].refCount else 0
    {
      if hash !in records {
        return 0;
      }
      if records[hash].refCount > 0 {
        records := records[hash := records[hash].(refCount := records[hash].refCount - 1)];
      }
      return records[hash].refCount;
    }

    /**
    The age is cast to an unsigned number, so a record from the future counts as older than any grace period up to half
    the range.
    */
    function CollectUnreferenced(gracePeriod: nat, now: int): (hashes: set<Bytes>)
      reads this
      ensures forall hash :: hash in hashes ==> hash in records && records[hash].refCount == 0
      ensures forall hash ::
                hash in records && records[hash].refCount == 0 && FitsI64(now - records[hash].createdAt) ==>
                var created := records[hash].createdAt;
                hash in hashes <==> if created <= now then now - created >= gracePeriod
                                    else created - now <= U64 - gracePeriod
    {
      set hash | && hash in records && records[hash].refCount == 0
                 && AsU64(now - records[hash].createdAt) >= gracePeriod
    }
  }

  predicate IsExpired(meta: BlobMetadata, now: int) {
    meta.expiresAt.Some? && meta.expiresAt.value <= now
  }

  function Surviving(blobs: map<nat, BlobMetadata>, namespaces: set<string>, now: int): map<nat, BlobMetadata> {
    map id | id in blobs && !(blobs[id].namespace in namespaces && IsExpired(blobs[id], now)) :: blobs[id]
  }

  function Unexpired(blobs: map<nat, BlobMetadata>, now: int): map<nat, BlobMetadata> {
    map id | id in blobs && !IsExpired(blobs[id], now) :: blobs[id]
  }

  /** Every blob is in a namespace the collector visits. */
  ghost predicate AllListed(blobs: map<nat, BlobMetadata>, namespaces: set<string>) {
    forall id :: id in blobs ==> blobs[id].namespace in namespaces
  }

  lemma ListedSurviveIff(blobs: map<nat, BlobMetadata>, namespaces: set<string>, now: int)
    requires AllListed(blobs, namespaces)
    ensures Surviving(blobs, namespaces, now) == Unexpired(blobs, now)
  {}

  /** What is left of the blobs while those in `rest` are still to be visited. */
  ghost function Remaining(blobs: map<nat, BlobMetadata>, rest: set<nat>, namespace: string, now: int)
    : map<nat, BlobMetadata>
  {
    map id | id in blobs && (id in rest || !(blobs[id].namespace == namespace && IsExpired(blobs[id], now)))
      :: blobs[id]
  }

  lemma OneLessToVisit(blobs: map<nat, BlobMetadata>, rest: set<nat>, namespace: string, now: int, id: nat)
    requires id in rest && id in blobs && blobs[id].namespace == namespace
    ensures var left := Remaining(blobs, rest, namespace, now);
            && id in left && left[id] == blobs[id]
            && Remaining(blobs, rest - {id}, namespace, now) == if IsExpired(blobs[id], now) then left - {id} else left
  {}

  class GarbageCollector {
    const store: BlobStore
    const dedup: DeduplicationEngine
    const gracePeriod: nat
    ghost const digest: Digest

    constructor (store: BlobStore, dedup: DeduplicationEngine, gracePeriod: nat, ghost digest: Digest)
      ensures this.store == store && this.dedup == dedup
      ensures this.gracePeriod == gracePeriod && this.digest == digest
    {
      this.store, this.dedup, this.gracePeriod, this.digest := store, dedup, gracePeriod, digest;
    }

    ghost function View(): State
      reads store, dedup
    {
      State(Shelf(dedup.records, store.chunks), store.blobs, store.contents)
    }

    /** One pass: sweep the unreferenced records, then drop the expired blobs. */
    method RunOnce(now: int, later: int) returns (total: nat, ghost swept: State, ghost ids: seq<nat>)
      modifies store`chunks, store`blobs, store`contents, dedup
      ensures Next(digest, old(View()), Swept(old(dedup.CollectUnreferenced(gracePeriod, now))), swept)
      ensures View() == ExpireAll(swept, ids, later)
      ensures total == |old(dedup.CollectUnreferenced(gracePeriod, now))| + |ids|
      ensures |ids| == |old(store.blobs)| - |store.blobs|
      ensures store.blobs == Surviving(old(store.blobs), store.namespaces, later)
      ensures old(AllListed(store.blobs, store.namespaces)) ==> store.blobs == Unexpired(old(store.blobs), later)
      ensures forall id :: id in store.blobs <==>
                && id in old(store.blobs)
                && var meta := old(store.blobs)[id];
                (meta.namespace in store.namespaces ==> meta.expiresAt.None? || meta.expiresAt.value > later)
    {
      var unreferenced := dedup.CollectUnreferenced(gracePeriod, now);
      Sweep(unreferenced);
      swept := View();
      var expired;
      expired, ids := CleanupExpiredBlobs(later);
      total := |unreferenced| + expired;
    }

    method Sweep(unreferenced: set<Bytes>)
      requires forall hash :: hash in unreferenced ==> View().shelf.RefCount(hash) == 0
      modifies store`chunks, dedup
      ensures Next(digest, old(View()), Swept(unreferenced), View())
    {
      var rest := unreferenced;
      while rest != {}
        invariant rest <= unreferenced
        invariant store.chunks == old(store.chunks) - (unreferenced - rest)
        invariant dedup.records == old(dedup.records) - (unreferenced - rest)
      {
        var hash :| hash in rest;
        store.chunks := store.chunks - {hash};
        dedup.records := dedup.records - {hash};
        rest := rest - {hash};
      }
    }

    method CleanupExpiredBlobs(now: int) returns (count: nat, ghost ids: seq<nat>)
      modifies store`chunks, store`blobs, store`contents, dedup
      ensures View() == ExpireAll(old(View()), ids, now)
      ensures store.blobs == Surviving(old(store.blobs), store.namespaces, now)
      ensures old(AllListed(store.blobs, store.namespaces)) ==> store.blobs == Unexpired(old(store.blobs), now)
      ensures forall id :: id in store.blobs <==>
                && id in old(store.blobs)
                && var meta := old(store.blobs)[id];
                (meta.namespace in store.namespaces ==> meta.expiresAt.None? || meta.expiresAt.value > now)
      ensures count == |ids| == |old(store.blobs)| - |store.blobs|
    {
      count, ids := 0, [];
      var rest := store.namespaces;
      ghost var done := {};
      while rest != {}
        invariant rest + done == store.namespaces
        invariant View() == ExpireAll(old(View()), ids, now)
        invariant store.blobs == Surviving(old(store.blobs), done, now)
        invariant count == |ids| == |old(store.blobs)| - |store.blobs|
      {
        var namespace :| namespace in rest;
        var dropped;
        ghost var more;
        dropped, more := CleanupNamespace(namespace, now);
        ExpireAllConcat(old(View()), ids, more, now);
        SurvivingTwice(old(store.blobs), done, namespace, now);
        count, ids := count + dropped, ids + more;
        rest, done := rest - {namespace}, done + {namespace};
      }
      if AllListed(old(store.blobs), store.namespaces) {
        ListedSurviveIff(old(store.blobs), store.namespaces, now);
      }
    }

    method CleanupNamespace(namespace: string, now: int) returns (count: nat, ghost ids: seq<nat>)
      modifies store`chunks, store`blobs, store`contents, dedup
      ensures View() == ExpireAll(old(View()), ids, now)
      ensures store.blobs == Surviving(old(store.blobs), {namespace}, now)
      ensures count == |ids| == |old(store.blobs)| - |store.blobs|
    {
      count, ids := 0, [];
      var rest := set id | id in store.blobs && store.blobs[id].namespace == namespace;
      ghost var before := store.blobs;
      while rest != {}
        invariant forall id :: id in rest ==> id in before && before[id].namespace == namespace
        invariant store.blobs == Remaining(before, rest, namespace, now)
        invariant View() == ExpireAll(old(View()), ids, now)
        invariant count == |ids| == |before| - |store.blobs|
      {
        var id :| id in rest;
        OneLessToVisit(before, rest, namespace, now, id);
        var dropped;
        ghost var more;
        dropped, more := ExpireIfDue(id, now);
        ExpireAllConcat(old(View()), ids, more, now);
        count, ids := count + dropped, ids + more;
        rest := rest - {id};
      }
    }

    method ExpireIfDue(id: nat, now: int) returns (count: nat, ghost ids: seq<nat>)
      requires id in store.blobs
      modifies store`chunks, store`blobs, store`contents, dedup
      ensures View() == ExpireAll(old(View()), ids, now)
      ensures store.blobs == if IsExpired(old(store.blobs)[id], now) then old(store.blobs) - {id} else old(store.blobs)
      ensures count == |ids| == |old(store.blobs)| - |store.blobs|
    {
      count, ids := 0, [];
      if IsExpired(store.blobs[id], now) {
        ghost var s := View();
        ExpireBlob(id, now);
        assert [id][..0] == [] && ExpireAll(s, [], now) == s;
        count, ids := 1, [id];
      }
    }

    method ExpireBlob(id: nat, ghost now: int)
      requires id in store.blobs && IsExpired(store.blobs[id], now)
      modifies store`chunks, store`blobs, store`contents, dedup
      ensures Next(digest, old(View()), Expired(id, now), View())
      ensures |store.blobs| == |old(store.blobs)| - 1
    {
      ReleaseAndForget(store.blobs[id].chunkHashes);
      assert (store.blobs - {id}).Keys == store.blobs.Keys - {id};
      store.blobs := store.blobs - {id};
      store.contents := store.contents - {id};
    }

    method ReleaseAndForget(hashes: seq<Bytes>)
      modifies store`chunks, dedup
      ensures View().shelf == DroppedAll(old(View().shelf), hashes, true)
    {
      for n := 0 to |hashes|
        invariant View().shelf == DroppedAll(old(View().shelf), hashes[..n], true)
      {
        assert hashes[..n + 1][..n] == hashes[..n];
        var refCount := dedup.ReleaseChunk(hashes[n]);
        if refCount == 0 {
          store.chunks := store.chunks - {hashes[n]};
          dedup.records := dedup.records - {hashes[n]};
        }
      }
      assert hashes[..|hashes|] == hashes;
    }
  }

  lemma SurvivingTwice(blobs: map<nat, BlobMetadata>, done: set<string>, namespace: string, now: int)
    ensures Surviving(Surviving(blobs, done, now), {namespace}, now) == Surviving(blobs, done + {namespace}, now)
  {}

  class BlobManager {
    const store: BlobStore
    const dedup: DeduplicationEngine
    const collector: GarbageCollector
    const uploads: UploadManager
    const chunkSize: nat
    const digest: Digest

    ghost predicate Valid()
      reads store, dedup, uploads
    {
      && collector.store == store && collector.dedup == dedup && collector.digest == digest
      && uploads.digest == digest && uploads.chunkSize == chunkSize && uploads.Valid()
      && Consistent(digest, collector.View()) && AllListed(store.blobs, store.namespaces)
    }

    ghost function View(): State
      reads store, dedup
    {
      State(Shelf(dedup.records, store.chunks), store.blobs, store.contents)
    }

    constructor (digest: Digest, chunkSize: nat, maxBlobSize: nat, gracePeriod: nat)
      requires chunkSize > 0
      ensures Valid() && View() == EMPTY && fresh({store, dedup, uploads})
      ensures this.digest == digest && this.chunkSize == chunkSize
    {
      var s := new BlobStore();
      var d := new DeduplicationEngine();
      var g := new GarbageCollector(s, d, gracePeriod, digest);
      var u := new UploadManager(digest, chunkSize, maxBlobSize);
      this.store, this.dedup, this.collector, this.uploads := s, d, g, u;
      this.digest, this.chunkSize := digest, chunkSize;
      new;
      EmptyIsConsistent(digest);
    }

    /** The loop `create_blob` and `complete_upload` share: record each chunk, write those not tracked before. */
    method StoreChunks(chunks: seq<Bytes>, hashes: seq<Bytes>, now: int)
      requires hashes == Hashes(digest, chunks)
      modifies store`chunks, dedup
      ensures View().shelf == AddedAll(old(View().shelf), digest, chunks, now)
    {
      for n := 0 to |chunks|
        invariant View().shelf == AddedAll(old(View().shelf), digest, chunks[..n], now)
      {
        assert chunks[..n + 1][..n] == chunks[..n];
        var duplicate := dedup.RecordChunk(hashes[n], |chunks[n]| % 0x1_0000_0000, now);
        if !duplicate {
          store.chunks := store.chunks[hashes[n] := chunks[n]];
        }
      }
      assert chunks[..|chunks|] == chunks;
    }

    /** The end `create_blob` and `complete_upload` share: the chunks, then the metadata. */
    method PutBlob(chunks: seq<Bytes>, meta: BlobMetadata, ghost data: Bytes, now: int)
      requires Valid() && meta.id !in store.blobs && meta.namespace in store.namespaces
      requires Describes(digest, meta, data) && chunks == Split(data, meta.chunkSize)
      modifies store`chunks, store`blobs, store`contents, dedup
      ensures Valid() && Next(digest, old(View()), Created(meta.id, meta, data, now), View())
    {
      ghost var s := View();
      StoreChunks(chunks, meta.chunkHashes, now);
      store.blobs := store.blobs[meta.id := meta];
      store.contents := store.contents[meta.id := data];
      NextKeepsConsistent(digest, s, Created(meta.id, meta, data, now), View());
    }

    method CreateBlob(namespace: string, data: Bytes, id: nat, now: int, validName: bool, withinQuota: bool)
      returns (r: Result<BlobMetadata>)
      requires Valid() && id !in store.blobs
      modifies store, dedup
      ensures Valid()
      ensures store.namespaces == old(store.namespaces) + if validName then {namespace} else {}
      ensures r.Ok? <==> validName && withinQuota
      ensures r.Err? ==> r == Err(if validName then QuotaExceeded else InvalidInput) && View() == old(View())
      ensures r.Ok? ==>
                && r.value.id == id && r.value.namespace == namespace && r.value.uploadId == None
                && r.value.createdAt == now && r.value.expiresAt == None && r.value.chunkSize == chunkSize
      ensures r.Ok? ==>
                && r.value == MetaOf(digest, data, chunkSize, id, namespace, None, now)
                && Next(digest, old(View()), Created(id, r.value, data, now), View())
    {
      if !validName {
        return Err(InvalidInput);
      }
      store.namespaces := store.namespaces + {namespace};
      if !withinQuota {
        return Err(QuotaExceeded);
      }
      var chunks, hashes := SplitData(digest, data, chunkSize);
      var root := Merkle.Build(digest, hashes);
      var meta := BlobMetadata(id, namespace, |data|, digest(data), root, chunkSize, |chunks| % 0x1_0000_0000,
                               hashes, None, now, None);
      PutBlob(chunks, meta, data, now);
      r := Ok(meta);
    }

    /** The session is consumed before the namespace and the quota are looked at. */
    method CompleteUpload(uploadId: nat, now: int, later: int, validName: bool, withinQuota: bool)
      returns (r: Result<BlobMetadata>)
      requires Valid()
      requires uploadId in uploads.sessions ==> uploads.sessions[uploadId].blobId !in store.blobs
      modifies store, dedup, uploads
      ensures Valid() && uploads.sessions == old(uploads.sessions) - {uploadId}
      ensures r.Err? ==> View() == old(View())
      ensures r.Ok? <==>
              && uploadId in old(uploads.sessions)
              && var session := old(uploads.sessions)[uploadId];
              && !session.aborted && |Flatten(session.uploadedParts)| == session.totalSize
              && validName && withinQuota
      ensures r.Ok? ==>
                var session := old(uploads.sessions)[uploadId];
                var data := Flatten(session.uploadedParts);
                && r.value.id == session.blobId && r.value.namespace == session.namespace
                && r.value.uploadId == Some(uploadId) && r.value.createdAt == now && r.value.expiresAt == None
                && r.value == MetaOf(digest, data, chunkSize, session.blobId, session.namespace, Some(uploadId), now)
                && Next(digest, old(View()), Created(session.blobId, r.value, data, later), View())
    {
      ghost var sessions := uploads.sessions;
      var completed := uploads.Complete(uploadId, now);
      if completed.Err? {
        return Err(completed.error);
      }
      var (meta, chunks) := completed.value;
      if !validName {
        return Err(InvalidInput);
      }
      store.namespaces := store.namespaces + {meta.namespace};
      if !withinQuota {
        return Err(QuotaExceeded);
      }
      PutBlob(chunks, meta, Flatten(sessions[uploadId].uploadedParts), later);
      r := Ok(meta);
    }

    /** `initiate_upload`; both ids are newly drawn UUIDs. */
    method InitiateUpload(namespace: string, uploadId: nat, blobId: nat, declaredSize: nat, now: int, validName: bool)
      returns (r: Result<()>)
      requires Valid() && uploadId !in uploads.sessions
      modifies store`namespaces, uploads
      ensures Valid()
      ensures r == if validName then Ok(()) else Err(InvalidInput)
      ensures store.namespaces == old(store.namespaces) + if validName then {namespace} else {}
      ensures uploads.sessions ==
              if validName
              then old(uploads.sessions)[uploadId := NewSession(namespace, blobId, declaredSize, now)]
              else old(uploads.sessions)
    {
      if !validName {
        return Err(InvalidInput);
      }
      store.namespaces := store.namespaces + {namespace};
      uploads.Initiate(uploadId, blobId, namespace, declaredSize, now);
      r := Ok(());
    }

    /**
    A whole upload, in parts cut in any way: it succeeds exactly if the parts together fit, and then leaves the store as
    creating the blob from the same bytes at once does, but for the upload id in the metadata.
    */
    method UploadInParts(namespace: string, parts: seq<Bytes>, uploadId: nat, blobId: nat, now: int, later: int,
                         validName: bool, withinQuota: bool)
      returns (r: Result<BlobMetadata>)
      requires Valid() && uploadId !in uploads.sessions && blobId !in store.blobs
      modifies store, dedup, uploads
      ensures Valid()
      ensures r.Ok? <==> validName && withinQuota && |Flatten(parts)| <= uploads.maxBlobSize
      ensures r.Err? ==> View() == old(View())
      ensures r.Ok? ==>
                var data := Flatten(parts);
                && r.value == MetaOf(digest, data, chunkSize, blobId, namespace, Some(uploadId), later)
                && r.value.(uploadId := None) == MetaOf(digest, data, chunkSize, blobId, namespace, None, later)
                && Next(digest, old(View()), Created(blobId, r.value, data, later), View())
    {
      var size := SizeOf(parts);
      var initiated := InitiateUpload(namespace, uploadId, blobId, size, now, validName);
      if initiated.Err? {
        return Err(initiated.error);
      }
      var sent := SendParts(uploadId, parts);
      if !sent {
        return Err(QuotaExceeded);
      }
      r := CompleteUpload(uploadId, later, later, validName, withinQuota);
    }

    /** A client's loop over `upload_part`; it stops at the first part that is refused. */
    method SendParts(uploadId: nat, parts: seq<Bytes>) returns (sent: bool)
      requires Valid() && uploadId in uploads.sessions
      requires !uploads.sessions[uploadId].aborted && uploads.sessions[uploadId].uploadedParts == []
      modifies uploads
      ensures Valid()
      ensures sent <==> |Flatten(parts)| <= uploads.maxBlobSize
      ensures sent ==>
                uploads.sessions
                == old(uploads.sessions)[uploadId := old(uploads.sessions)[uploadId].(uploadedParts := parts)]
    {
      ghost var sessions := uploads.sessions;
      for n := 0 to |parts|
        invariant Valid()
        invariant uploads.sessions == sessions[uploadId := sessions[uploadId].(uploadedParts := parts[..n])]
      {
        assert parts[..n + 1] == parts[..n] + [parts[n]];
        FlattenPrefix(parts, n + 1);
        FlattenSnoc(parts[..n], parts[n]);
        var r := uploads.UploadPart(uploadId, parts[n]);
        if r.Err? {
          return false;
        }
      }
      assert parts[..|parts|] == parts;
      assert uploads.sessions[uploadId].uploadedParts == parts;
      return true;
    }

    method DeleteBlob(id: nat) returns (r: Result<()>)
      requires Valid()
      modifies store`chunks, store`blobs, store`contents, dedup
      ensures Valid()
      ensures r.Ok? <==> id in old(store.blobs)
      ensures r.Err? ==> r == Err(NotFound) && View() == old(View())
      ensures r.Ok? ==> Next(digest, old(View()), Deleted(id), View())
    {
      if id !in store.blobs {
        return Err(NotFound);
      }
      ghost var s := View();
      DropBlob(id);
      NextKeepsConsistent(digest, s, Deleted(id), View());
      r := Ok(());
    }

    method DropBlob(id: nat)
      requires id in store.blobs
      modifies store`chunks, store`blobs, store`contents, dedup
      ensures Next(digest, old(View()), Deleted(id), View())
    {
      ReleaseChunks(store.blobs[id].chunkHashes);
      store.blobs := store.blobs - {id};
      store.contents := store.contents - {id};
    }

    /** The loop of `delete_blob`: unlike the collector it leaves the record of a deleted chunk in place. */
    method ReleaseChunks(hashes: seq<Bytes>)
      modifies store`chunks, dedup
      ensures View().shelf == DroppedAll(old(View().shelf), hashes, false)
    {
      for n := 0 to |hashes|
        invariant View().shelf == DroppedAll(old(View().shelf), hashes[..n], false)
      {
        assert hashes[..n + 1][..n] == hashes[..n];
        var refCount := dedup.ReleaseChunk(hashes[n]);
        if refCount == 0 {
          store.chunks := store.chunks - {hashes[n]};
        }
      }
      assert hashes[..|hashes|] == hashes;
    }

    /** What is read back is what was uploaded; it can be read exactly if its chunks are stored; collisions aside. */
    method GetBlob(id: nat) returns (r: Result<Bytes>, ghost x: Bytes, ghost y: Bytes)
      requires Valid()
      ensures id !in store.blobs ==> r == Err(NotFound)
      ensures id in store.blobs && r.Ok? ==> r.value == store.contents[id] || Collision(digest, x, y)
      ensures id in store.blobs ==>
                || r == (if AllStored(store.chunks, store.blobs[id].chunkHashes)
                         then Ok(store.contents[id]) else Err(NotFound))
                || Collision(digest, x, y)
    {
      x, y := [], [];
      if id !in store.blobs {
        return Err(NotFound), x, y;
      }
      var meta := store.blobs[id];
      r := Download(digest, store.chunks, meta);
      ghost var data := store.contents[id];
      if r.Ok? && r.value != data {
        DownloadIsFaithful(digest, meta, data, r.value);
        x, y := r.value, data;
      } else {
        x, y := ReadableIffStored(digest, store.chunks, meta, data, r);
      }
    }

    method GetBlobRange(id: nat, offset: nat, length: nat) returns (r: Result<Bytes>, ghost x: Bytes, ghost y: Bytes)
      requires Valid()
      ensures id !in store.blobs ==> r == Err(NotFound)
      ensures id in store.blobs ==>
                var data := store.contents[id];
                && (r == Err(InvalidRange) <==> offset >= |data|)
                && (offset < |data| && RangeOverflows(offset, length) ==> r == Err(Panic))
                && (offset < |data| && !RangeOverflows(offset, length) ==>
                      var end := RangeEnd(|data|, offset, length);
                      || r == (if RangeStored(store.chunks, store.blobs[id], offset, end)
                               then Ok(data[offset..end]) else Err(NotFound))
                      || Collision(digest, x, y))
    {
      x, y := [], [];
      if id !in store.blobs {
        return Err(NotFound), x, y;
      }
      var meta := store.blobs[id];
      ghost var data := store.contents[id];
      x, y := PiecesOrCollision(digest, store.chunks, Split(data, meta.chunkSize));
      r := DownloadRange(store.chunks, meta, offset, length, data);
    }

    /** Re-writing a live blob's metadata with an expiry, through the store handle the manager gives out. */
    method SetExpiry(id: nat, expiresAt: int)
      requires Valid() && id in store.blobs
      modifies store`blobs
      ensures Valid() && Next(digest, old(View()), Retimed(id, expiresAt), View())
      ensures store.blobs[id].expiresAt == Some(expiresAt) && store.blobs.Keys == old(store.blobs.Keys)
    {
      ghost var s := View();
      store.blobs := store.blobs[id := store.blobs[id].(expiresAt := Some(expiresAt))];
      NextKeepsConsistent(digest, s, Retimed(id, expiresAt), View());
    }

    method RunGc(now: int, later: int) returns (total: nat)
      requires Valid()
      modifies store`chunks, store`blobs, store`contents, dedup
      ensures Valid()
      ensures total == |old(dedup.CollectUnreferenced(collector.gracePeriod, now))| + |old(store.blobs)| - |store.blobs|
      ensures store.blobs == Unexpired(old(store.blobs), later)
      ensures forall id :: id in store.blobs <==>
                && id in old(store.blobs)
                && var expiry := old(store.blobs)[id].expiresAt; (expiry.None? || expiry.value > later)
      ensures forall id :: id in store.blobs ==> store.blobs[id] == old(store.blobs)[id]
      ensures NoneMissing(old(View())) ==> NoneMissing(View())
      ensures old(View().shelf.Available()) ==> View().shelf.Available()
      ensures forall hash :: View().shelf.Missing(hash) ==>
                && old(View().shelf.Missing(hash))
                && hash !in old(dedup.CollectUnreferenced(collector.gracePeriod, now))
    {
      ghost var s, unreferenced := View(), dedup.CollectUnreferenced(collector.gracePeriod, now);
      ghost var swept, ids;
      total, swept, ids := collector.RunOnce(now, later);
      CollectorPassKeeps(digest, s, unreferenced, swept, ids, later);
    }
  }
}
