/** Blob metadata, whole and ranged downloads (crates/nova-blob/src/metadata.rs, download.rs). */
module Blobs {
  import opened Outcomes
  import opened Digests
  import opened Numbers
  import opened Chunks
  import Merkle

  datatype BlobMetadata = BlobMetadata(
    id: nat,
    namespace: string,
    size: nat,
    sha256: Bytes,
    merkleRoot: Bytes,
    chunkSize: nat,
    chunkCount: nat,
    chunkHashes: seq<Bytes>,
    uploadId: Option<nat>,
    createdAt: int,
    expiresAt: Option<int>)

  /** The metadata speak about exactly these bytes. */
  ghost predicate Describes(digest: Digest, meta: BlobMetadata, data: Bytes) {
    && meta.chunkSize > 0
    && meta.size == |data|
    && meta.sha256 == digest(data)
    && meta.chunkHashes == Hashes(digest, Split(data, meta.chunkSize))
    && meta.merkleRoot == Merkle.Root(digest, meta.chunkHashes)
    && meta.chunkCount == |meta.chunkHashes| % 0x1_0000_0000
  }

  /** The metadata of a blob made from the data at once, or from parts that were uploaded. */
  function MetaOf(digest: Digest, data: Bytes, chunkSize: nat, id: nat, namespace: string, uploadId: Option<nat>,
                  now: int): (meta: BlobMetadata)
    requires chunkSize > 0
    ensures Describes(digest, meta, data)
  {
    var hashes := Hashes(digest, Split(data, chunkSize));
    BlobMetadata(id, namespace, |data|, digest(data), Merkle.Root(digest, hashes), chunkSize,
                 |hashes| % 0x1_0000_0000, hashes, uploadId, now, None)
  }

  /** Each stored chunk hashes to the name it is stored under. */
  ghost predicate NamedByHash(digest: Digest, chunks: map<Bytes, Bytes>) {
    forall hash :: hash in chunks ==> digest(chunks[hash]) == hash
  }

  // ---- Whole downloads ----

  function Fetched(chunks: map<Bytes, Bytes>, hashes: seq<Bytes>): Bytes
    requires forall i :: 0 <= i < |hashes| ==> hashes[i] in chunks
  {
    if hashes == [] then [] else chunks[hashes[0]] + Fetched(chunks, hashes[1..])
  }

  ghost predicate AllStored(chunks: map<Bytes, Bytes>, hashes: seq<Bytes>) {
    forall i :: 0 <= i < |hashes| ==> hashes[i] in chunks
  }

  /** What a download answers when every stored chunk has the hash it is stored under. */
  ghost predicate DownloadAnswers(digest: Digest, chunks: map<Bytes, Bytes>, meta: BlobMetadata, r: Result<Bytes>) {
    if !AllStored(chunks, meta.chunkHashes) then r == Err(NotFound)
    else if digest(Fetched(chunks, meta.chunkHashes)) == meta.sha256 then r == Ok(Fetched(chunks, meta.chunkHashes))
    else r == Err(ChecksumMismatch)
  }

  /** The chunk is stored and has the hash it is stored under. */
  predicate Intact(digest: Digest, chunks: map<Bytes, Bytes>, hash: Bytes) {
    hash in chunks && digest(chunks[hash]) == hash
  }

  ghost predicate IntactUpTo(digest: Digest, chunks: map<Bytes, Bytes>, hashes: seq<Bytes>, n: nat)
    requires n <= |hashes|
  {
    forall k :: 0 <= k < n ==> Intact(digest, chunks, hashes[k])
  }

  /** The first chunk that is not intact decides how a download fails; only then does the whole. */
  method Download(digest: Digest, chunks: map<Bytes, Bytes>, meta: BlobMetadata) returns (r: Result<Bytes>)
    ensures r.Ok? ==> digest(r.value) == meta.sha256
    ensures r == Err(NotFound) <==>
            exists n :: 0 <= n < |meta.chunkHashes| && IntactUpTo(digest, chunks, meta.chunkHashes, n)
                        && meta.chunkHashes[n] !in chunks
    ensures var hashes := meta.chunkHashes;
            IntactUpTo(digest, chunks, hashes, |hashes|) ==>
              r == if digest(Fetched(chunks, hashes)) == meta.sha256 then Ok(Fetched(chunks, hashes))
                   else Err(ChecksumMismatch)
    ensures r.Err? ==> r == Err(NotFound) || r == Err(ChecksumMismatch)
    ensures r.Ok? ==> IntactUpTo(digest, chunks, meta.chunkHashes, |meta.chunkHashes|)
    ensures NamedByHash(digest, chunks) ==> DownloadAnswers(digest, chunks, meta, r)
  {
    var all, hashes := [], meta.chunkHashes;
    for n := 0 to |hashes|
      invariant AllStored(chunks, hashes[..n]) && IntactUpTo(digest, chunks, hashes, n)
      invariant AllStored(chunks, hashes) ==> all + Fetched(chunks, hashes[n..]) == Fetched(chunks, hashes)
    {
      if hashes[n] !in chunks {
        return Err(NotFound);
      }
      var chunk := chunks[hashes[n]];
      if digest(chunk) != hashes[n] {
        return Err(ChecksumMismatch);
      }
      all := all + chunk;
      assert hashes[n..][1..] == hashes[n + 1..];
    }
    assert hashes[|hashes|..] == [] && hashes[..|hashes|] == hashes && all + [] == all;
    if digest(all) != meta.sha256 {
      return Err(ChecksumMismatch);
    }
    r := Ok(all);
  }

  /** Bytes with the digest of the uploaded ones are the uploaded ones, or the digest collides. */
  lemma DownloadIsFaithful(digest: Digest, meta: BlobMetadata, data: Bytes, result: Bytes)
    requires Describes(digest, meta, data) && digest(result) == meta.sha256
    ensures result == data || Collision(digest, result, data)
  {}

  /** With all chunks in place the download finds the uploaded bytes, or two colliding chunks. */
  lemma {:induction false} FetchedIsData(digest: Digest, chunks: map<Bytes, Bytes>, pieces: seq<Bytes>)
    returns (x: Bytes, y: Bytes)
    requires NamedByHash(digest, chunks) && AllStored(chunks, Hashes(digest, pieces))
    ensures Fetched(chunks, Hashes(digest, pieces)) == Flatten(pieces) || Collision(digest, x, y)
    decreases |pieces|
  {
    x, y := [], [];
    if pieces != [] {
      var hashes := Hashes(digest, pieces);
      assert hashes[1..] == Hashes(digest, pieces[1..]);
      x, y := FetchedIsData(digest, chunks, pieces[1..]);
      if !Collision(digest, x, y) && chunks[hashes[0]] != pieces[0] {
        return chunks[hashes[0]], pieces[0];
      }
    }
  }

  /** What the ranged download needs: a chunk hash leads to the chunk itself or to nothing, or two chunks collide. */
  lemma {:induction false} PiecesOrCollision(digest: Digest, chunks: map<Bytes, Bytes>, pieces: seq<Bytes>)
    returns (x: Bytes, y: Bytes)
    requires NamedByHash(digest, chunks)
    ensures (forall k :: 0 <= k < |pieces| && digest(pieces[k]) in chunks ==> chunks[digest(pieces[k])] == pieces[k])
            || Collision(digest, x, y)
    decreases |pieces|
  {
    x, y := [], [];
    if pieces != [] {
      var n := |pieces| - 1;
      x, y := PiecesOrCollision(digest, chunks, pieces[..n]);
      if !Collision(digest, x, y) && digest(pieces[n]) in chunks && chunks[digest(pieces[n])] != pieces[n] {
        return chunks[digest(pieces[n])], pieces[n];
      }
    }
  }

  /** Whether a blob can be read depends on nothing but its chunks being stored. */
  lemma ReadableIffStored(digest: Digest, chunks: map<Bytes, Bytes>, meta: BlobMetadata, data: Bytes, r: Result<Bytes>)
    returns (x: Bytes, y: Bytes)
    requires Describes(digest, meta, data) && NamedByHash(digest, chunks) && DownloadAnswers(digest, chunks, meta, r)
    ensures r == (if AllStored(chunks, meta.chunkHashes) then Ok(data) else Err(NotFound)) || Collision(digest, x, y)
  {
    x, y := [], [];
    if AllStored(chunks, meta.chunkHashes) {
      x, y := FetchedIsData(digest, chunks, Split(data, meta.chunkSize));
      FlattenAfterSplit(data, meta.chunkSize);
    }
  }

  // ---- Ranged downloads ----

  /** The one family of ranges the index arithmetic does not survive: `offset + length` or `end - 1` leaves 64 bits. */
  predicate RangeOverflows(offset: nat, length: nat) {
    offset + length >= U64 || (offset == 0 && length == 0)
  }

  function RangeEnd(size: nat, offset: nat, length: nat): nat {
    Min(offset + length, size)
  }

  /** The store holds, for each chunk of the data, that chunk or none. */
  ghost predicate HoldsPieces(chunks: map<Bytes, Bytes>, meta: BlobMetadata, data: Bytes)
    requires meta.chunkSize > 0
  {
    var pieces := Split(data, meta.chunkSize);
    && meta.size == |data| && |meta.chunkHashes| == |pieces|
    && forall k :: 0 <= k < |pieces| && meta.chunkHashes[k] in chunks ==> chunks[meta.chunkHashes[k]] == pieces[k]
  }

  /** Chunk `k` begins before the range ends, and ends after the range begins. */
  ghost predicate Meets(size: nat, k: nat, offset: nat, end: nat) {
    Base(k, size) < end && offset < Base(k, size) + size
  }

  /** All chunks the range meets are stored; the others may be gone. */
  ghost predicate RangeStored(chunks: map<Bytes, Bytes>, meta: BlobMetadata, offset: nat, end: nat) {
    forall k :: 0 <= k < |meta.chunkHashes| && Meets(meta.chunkSize, k, offset, end) ==> meta.chunkHashes[k] in chunks
  }

  lemma MeetsIffBetween(size: nat, offset: nat, start: nat, skip: nat, end: nat, stop: nat, tail: nat, k: nat)
    requires offset == Base(start, size) + skip && end == Base(stop, size) + tail + 1 && skip < size && tail < size
    ensures Meets(size, k, offset, end) <==> start <= k <= stop
  {
    BaseMonotone(start, k, size);
    BaseMonotone(k, start, size);
    BaseMonotone(k, stop, size);
    BaseMonotone(stop, k, size);
  }

  /** The part of a chunk that holds `held` bytes which the range takes; `skip` and `tail` are remainders. */
  function ChunkStart(first: bool, skip: nat): nat {
    if first then skip else 0
  }

  function ChunkEnd(last: bool, tail: nat, held: nat): nat {
    if last then Min(tail + 1, held) else held
  }

  /** The chunk at `base` takes the copy from where it stands to the chunk's end, or to the end of the range. */
  ghost predicate Contributes(data: Bytes, size: nat, offset: nat, end: nat, base: nat, chunk: Bytes,
                              first: bool, skip: nat, last: bool, tail: nat)
  {
    var copied, next := if first then offset else base, if last then end else base + size;
    var lo, hi := ChunkStart(first, skip), ChunkEnd(last, tail, |chunk|);
    && lo <= hi <= |chunk| && offset <= copied <= next <= end <= |data|
    && data[offset..copied] + chunk[lo..hi] == data[offset..next]
  }

  /** First, middle and last chunk alike contribute exactly the bytes the range wants of them. */
  lemma ContributionOf(data: Bytes, size: nat, offset: nat, end: nat, base: nat, chunk: Bytes,
                       first: bool, skip: nat, last: bool, tail: nat)
    requires offset <= end <= |data| && end > 0 && skip < size && tail < size
    requires if first then offset == base + skip else offset < base
    requires if last then end - 1 == base + tail else base + size <= end - 1
    requires chunk == data[base..Min(base + size, |data|)]
    ensures Contributes(data, size, offset, end, base, chunk, first, skip, last, tail)
  {
    var held := Min(base + size, |data|) - base;
    SliceExtended(data, offset, base, held, ChunkStart(first, skip), ChunkEnd(last, tail, held));
  }

  lemma PlacedBetween(size: nat, offset: nat, start: nat, skip: nat, end: nat, stop: nat, tail: nat, k: nat)
    requires start <= k <= stop && offset == Base(start, size) + skip && end == Base(stop, size) + tail + 1
    requires skip < size && tail < size
    ensures if k == start then offset == Base(k, size) + skip else offset < Base(k, size)
    ensures if k == stop then end - 1 == Base(k, size) + tail else Base(k, size) + size <= end - 1
    ensures Base(k, size) < end
  {
    BaseMonotone(start, k, size);
    BaseMonotone(k, stop, size);
  }

  lemma ChunkContents(data: Bytes, size: nat, k: nat)
    requires size > 0 && Base(k, size) < |data|
    ensures k < |Split(data, size)|
    ensures Split(data, size)[k] == data[Base(k, size)..Min(Base(k, size) + size, |data|)]
  {
    PieceAt(data, size, k);
  }

  lemma CopiedOneMore(data: Bytes, size: nat, offset: nat, start: nat, skip: nat,
                      end: nat, stop: nat, tail: nat, k: nat)
    requires size > 0 && offset <= end <= |data| && end > 0 && start <= k <= stop
    requires offset == Base(start, size) + skip && skip < size
    requires end - 1 == Base(stop, size) + tail && tail < size
    ensures k < |Split(data, size)|
    ensures Contributes(data, size, offset, end, Base(k, size), Split(data, size)[k], k == start, skip, k == stop, tail)
  {
    PlacedBetween(size, offset, start, skip, end, stop, tail, k);
    ChunkContents(data, size, k);
    ContributionOf(data, size, offset, end, Base(k, size), Split(data, size)[k], k == start, skip, k == stop, tail);
  }

  lemma SliceExtended(data: Bytes, from: nat, base: nat, held: nat, lo: nat, hi: nat)
    requires base + held <= |data| && lo <= hi <= held && from <= base + lo
    ensures data[from..base + lo] + data[base..base + held][lo..hi] == data[from..base + hi]
  {
    var window := data[base..base + held];
    forall i | 0 <= i < hi - lo ensures window[lo..hi][i] == data[base + lo..base + hi][i] {
      assert window[lo..hi][i] == window[lo + i] == data[base + (lo + i)];
    }
    assert window[lo..hi] == data[base + lo..base + hi];
    assert data[from..base + lo] + data[base + lo..base + hi] == data[from..base + hi];
  }

  method DownloadRange(chunks: map<Bytes, Bytes>, meta: BlobMetadata, offset: nat, length: nat, ghost data: Bytes)
    returns (r: Result<Bytes>)
    requires meta.chunkSize > 0
    ensures r == Err(InvalidRange) <==> offset >= meta.size
    ensures offset < meta.size && RangeOverflows(offset, length) ==> r == Err(Panic)
    ensures HoldsPieces(chunks, meta, data) ==>
              && (r == Err(Panic) <==> offset < meta.size
                                       && (offset + length >= 0x1_0000_0000_0000_0000 || offset + length == 0))
              && (r.Ok? ==> |r.value| == Min(length, meta.size - offset)
                            && forall i :: 0 <= i < |r.value| ==> r.value[i] == data[offset + i])
    ensures offset < meta.size && !RangeOverflows(offset, length) && HoldsPieces(chunks, meta, data) ==>
              var end := RangeEnd(meta.size, offset, length);
              r == if RangeStored(chunks, meta, offset, end) then Ok(data[offset..end]) else Err(NotFound)
  {
    if offset >= meta.size {
      return Err(InvalidRange);
    }
    if offset + length >= U64 {
      return Err(Panic);
    }
    var end := Min(offset + length, meta.size);
    if end == 0 {
      return Err(Panic);
    }
    r := CopyRange(chunks, meta, offset, end, data);
  }

  /** The loop over the chunks that meet the range. */
  method CopyRange(chunks: map<Bytes, Bytes>, meta: BlobMetadata, offset: nat, end: nat, ghost data: Bytes)
    returns (r: Result<Bytes>)
    requires meta.chunkSize > 0 && offset <= end && end > 0
    ensures r != Err(InvalidRange)
    ensures end <= |data| && HoldsPieces(chunks, meta, data) ==>
              r == if RangeStored(chunks, meta, offset, end) then Ok(data[offset..end]) else Err(NotFound)
  {
    var size := meta.chunkSize;
    var startChunk, skip := Divide(offset, size);
    var endChunk, tail := Divide(end - 1, size);
    var result, k := [], startChunk;
    ghost var intact := end <= |data| && HoldsPieces(chunks, meta, data);
    BaseMonotone(endChunk, startChunk, size);
    ghost var copied := offset;
    while k <= endChunk
      invariant startChunk <= k
      invariant copied == if k == startChunk then offset else if k <= endChunk then Base(k, size) else end
      invariant intact ==> offset <= copied <= end && result == data[offset..copied]
      invariant forall i :: startChunk <= i < k ==> i < |meta.chunkHashes| && meta.chunkHashes[i] in chunks
    {
      MeetsIffBetween(size, offset, startChunk, skip, end, endChunk, tail, k);
      if intact {
        CopiedOneMore(data, size, offset, startChunk, skip, end, endChunk, tail, k);
      }
      if k >= |meta.chunkHashes| {
        return Err(Panic);
      }
      if meta.chunkHashes[k] !in chunks {
        return Err(NotFound);
      }
      var chunk := chunks[meta.chunkHashes[k]];
      var chunkStart, chunkEnd := ChunkStart(k == startChunk, skip), ChunkEnd(k == endChunk, tail, |chunk|);
      if chunkStart < chunkEnd {
        result := result + chunk[chunkStart..chunkEnd];
      }
      copied := if k == endChunk then end else Base(k, size) + size;
      k := k + 1;
    }
    forall i: nat ensures Meets(size, i, offset, end) <==> startChunk <= i <= endChunk {
      MeetsIffBetween(size, offset, startChunk, skip, end, endChunk, tail, i);
    }
    r := Ok(result);
  }
}
