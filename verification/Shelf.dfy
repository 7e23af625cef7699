/**
Deduplicated chunk storage: the reference counts of crates/nova-blob/src/dedup.rs beside the stored chunks,
as values. The methods of the blob manager and the collector are specified by the functions here.
*/
module Shelf {
  import opened Digests
  import opened Chunks

  datatype ChunkRecord = ChunkRecord(size: nat, refCount: nat, createdAt: int)

  /** Tracked records and stored chunks, both by hash. */
  datatype Shelf = Shelf(records: map<Bytes, ChunkRecord>, chunks: map<Bytes, Bytes>) {
    function RefCount(hash: Bytes): nat {
      if hash in records then records[hash].refCount else 0
    }

    /** Tracked without being stored: `delete_blob` leaves such records, `record_chunk` takes them for duplicates. */
    predicate Missing(hash: Bytes) {
      hash in records && hash !in chunks
    }

    /** What every operation keeps, whatever happened before. */
    ghost predicate Sound(digest: Digest) {
      forall hash :: hash in chunks ==>
                       hash in records && records[hash].refCount > 0 && digest(chunks[hash]) == hash
    }

    /** Every referenced chunk can be read. */
    ghost predicate Available() {
      forall hash :: RefCount(hash) > 0 ==> hash in chunks
    }
  }

  // ---- One chunk ----

  function Recorded(records: map<Bytes, ChunkRecord>, hash: Bytes, size: nat, now: int): map<Bytes, ChunkRecord> {
    if hash in records
    then records[hash := records[hash].(refCount := records[hash].refCount + 1)]
    else records[hash := ChunkRecord(size, 1, now)]
  }

  /** `release_chunk` saturates at zero and leaves untracked hashes alone. */
  function Released(records: map<Bytes, ChunkRecord>, hash: Bytes): map<Bytes, ChunkRecord> {
    if hash in records && records[hash].refCount > 0
    then records[hash := records[hash].(refCount := records[hash].refCount - 1)]
    else records
  }

  /** A chunk is written only when its hash was not tracked. */
  function Added(shelf: Shelf, hash: Bytes, chunk: Bytes, now: int): Shelf {
    Shelf(Recorded(shelf.records, hash, |chunk| % 0x1_0000_0000, now),
          if hash in shelf.records then shelf.chunks else shelf.chunks[hash := chunk])
  }

  /** A chunk whose count is zero after the release is deleted; only the collector also forgets its record. */
  function Dropped(shelf: Shelf, hash: Bytes, forget: bool): Shelf {
    var records := Released(shelf.records, hash);
    if Shelf(records, shelf.chunks).RefCount(hash) > 0 then Shelf(records, shelf.chunks)
    else Shelf(if forget then records - {hash} else records, shelf.chunks - {hash})
  }

  // ---- All chunks of a blob ----

  function AddedAll(shelf: Shelf, digest: Digest, chunks: seq<Bytes>, now: int): Shelf {
    if chunks == [] then shelf
    else
      var n := |chunks| - 1;
      Added(AddedAll(shelf, digest, chunks[..n], now), digest(chunks[n]), chunks[n], now)
  }

  function DroppedAll(shelf: Shelf, hashes: seq<Bytes>, forget: bool): Shelf {
    if hashes == [] then shelf
    else
      var n := |hashes| - 1;
      Dropped(DroppedAll(shelf, hashes[..n], forget), hashes[n], forget)
  }

  lemma HashesOneMore(digest: Digest, chunks: seq<Bytes>)
    requires chunks != []
    ensures var n := |chunks| - 1;
            multiset(Hashes(digest, chunks)) == multiset(Hashes(digest, chunks[..n])) + multiset{digest(chunks[n])}
  {
    var n := |chunks| - 1;
    assert Hashes(digest, chunks) == Hashes(digest, chunks[..n]) + [digest(chunks[n])];
  }

  lemma {:induction false} AddedAllCounts(shelf: Shelf, digest: Digest, chunks: seq<Bytes>, now: int, hash: Bytes)
    ensures AddedAll(shelf, digest, chunks, now).RefCount(hash)
            == shelf.RefCount(hash) + multiset(Hashes(digest, chunks))[hash]
    ensures hash in AddedAll(shelf, digest, chunks, now).records
            <==> hash in shelf.records || hash in Hashes(digest, chunks)
    decreases |chunks|
  {
    if chunks != [] {
      AddedAllCounts(shelf, digest, chunks[..|chunks| - 1], now, hash);
      HashesOneMore(digest, chunks);
    }
  }

  /** Adding a blob stores its new chunks, keeps every stored one as it was, and brings no missing one back. */
  lemma {:induction false} AddedAllStores(shelf: Shelf, digest: Digest, chunks: seq<Bytes>, now: int, hash: Bytes)
    requires shelf.Sound(digest)
    ensures var after := AddedAll(shelf, digest, chunks, now);
            && after.Sound(digest)
            && (hash in after.chunks <==>
                hash in shelf.chunks || (hash !in shelf.records && hash in Hashes(digest, chunks)))
            && (hash in shelf.chunks ==> after.chunks[hash] == shelf.chunks[hash])
    decreases |chunks|
  {
    if chunks != [] {
      var n := |chunks| - 1;
      AddedAllStores(shelf, digest, chunks[..n], now, hash);
      AddedAllCounts(shelf, digest, chunks[..n], now, hash);
      AddedSound(AddedAll(shelf, digest, chunks[..n], now), digest, chunks[n], now);
      HashesOneMore(digest, chunks);
      assert hash in Hashes(digest, chunks) <==> hash in multiset(Hashes(digest, chunks));
    }
  }

  lemma AddedSound(shelf: Shelf, digest: Digest, chunk: Bytes, now: int)
    requires shelf.Sound(digest)
    ensures Added(shelf, digest(chunk), chunk, now).Sound(digest)
  {}

  /** Readable stays readable exactly when none of the new chunks was tracked without being stored. */
  lemma AddKeepsAvailableIff(shelf: Shelf, digest: Digest, chunks: seq<Bytes>, now: int)
    requires shelf.Sound(digest) && shelf.Available()
    ensures AddedAll(shelf, digest, chunks, now).Available()
            <==> forall i :: 0 <= i < |chunks| ==> !shelf.Missing(digest(chunks[i]))
  {
    var after, hashes := AddedAll(shelf, digest, chunks, now), Hashes(digest, chunks);
    forall hash ensures after.RefCount(hash) > 0 && hash !in after.chunks <==> shelf.Missing(hash) && hash in hashes {
      AddedAllCounts(shelf, digest, chunks, now, hash);
      AddedAllStores(shelf, digest, chunks, now, hash);
      assert hash in hashes <==> hash in multiset(hashes);
    }
    forall i | 0 <= i < |chunks| ensures digest(chunks[i]) in hashes {
      assert hashes[i] == digest(chunks[i]);
    }
  }

  // ---- Dropping ----

  /** No release saturates as long as the dropped references are all counted. */
  ghost predicate Covers(shelf: Shelf, hashes: seq<Bytes>) {
    forall hash :: multiset(hashes)[hash] <= shelf.RefCount(hash)
  }

  lemma {:induction false} DroppedAllCounts(shelf: Shelf, hashes: seq<Bytes>, forget: bool, hash: Bytes)
    requires Covers(shelf, hashes)
    ensures var after := DroppedAll(shelf, hashes, forget);
            && after.RefCount(hash) == shelf.RefCount(hash) - multiset(hashes)[hash]
            && (hash in after.chunks <==>
                hash in shelf.chunks && !(hash in hashes && after.RefCount(hash) == 0))
            && (hash in after.chunks ==> after.chunks[hash] == shelf.chunks[hash])
            && (hash in after.records <==>
                hash in shelf.records && !(forget && hash in hashes && after.RefCount(hash) == 0))
    decreases |hashes|
  {
    if hashes != [] {
      var n := |hashes| - 1;
      assert hashes == hashes[..n] + [hashes[n]];
      CoversPrefix(shelf, hashes);
      DroppedAllCounts(shelf, hashes[..n], forget, hash);
      DroppedAllCounts(shelf, hashes[..n], forget, hashes[n]);
    }
  }

  lemma CoversPrefix(shelf: Shelf, hashes: seq<Bytes>)
    requires hashes != [] && Covers(shelf, hashes)
    ensures Covers(shelf, hashes[..|hashes| - 1])
  {
    var n := |hashes| - 1;
    assert hashes == hashes[..n] + [hashes[n]];
    forall hash ensures multiset(hashes[..n])[hash] <= shelf.RefCount(hash) {
      assert multiset(hashes)[hash] <= shelf.RefCount(hash);
    }
  }

  /** Dropping a blob keeps the shelf sound and readable, and makes no referenced chunk missing. */
  lemma DropKeepsSound(shelf: Shelf, digest: Digest, hashes: seq<Bytes>, forget: bool)
    requires shelf.Sound(digest) && Covers(shelf, hashes)
    ensures DroppedAll(shelf, hashes, forget).Sound(digest)
    ensures shelf.Available() ==> DroppedAll(shelf, hashes, forget).Available()
  {
    var after := DroppedAll(shelf, hashes, forget);
    forall hash ensures hash in after.chunks ==> && hash in after.records && after.records[hash].refCount > 0
                                                 && digest(after.chunks[hash]) == hash
                ensures shelf.Available() && after.RefCount(hash) > 0 ==> hash in after.chunks
    {
      DroppedAllCounts(shelf, hashes, forget, hash);
      assert hash in hashes <==> multiset(hashes)[hash] > 0;
    }
  }

  /** What the collector drops, it forgets: it adds no missing record. */
  lemma ForgettingAddsNoMissing(shelf: Shelf, hashes: seq<Bytes>, hash: Bytes)
    requires Covers(shelf, hashes) && DroppedAll(shelf, hashes, true).Missing(hash)
    ensures shelf.Missing(hash)
  {
    DroppedAllCounts(shelf, hashes, true, hash);
  }
}
