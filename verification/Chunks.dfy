/** Cutting data into chunks (crates/nova-blob/src/chunk.rs). */
module Chunks {
  import opened Digests
  import opened Numbers

  // ---- Specification ----

  function Pieces(data: Bytes, size: nat): seq<Bytes>
    requires size > 0
    decreases |data|
  {
    if data == [] then []
    else [data[..Min(size, |data|)]] + Pieces(data[Min(size, |data|)..], size)
  }

  /** Empty data still has one chunk, the empty one. */
  function Split(data: Bytes, size: nat): (chunks: seq<Bytes>)
    requires size > 0 || data == []
    ensures chunks != []
  {
    if data == [] then [[]] else Pieces(data, size)
  }

  function Hashes(digest: Digest, chunks: seq<Bytes>): (hashes: seq<Bytes>)
    ensures |hashes| == |chunks|
    ensures forall i :: 0 <= i < |chunks| ==> hashes[i] == digest(chunks[i])
  {
    seq(|chunks|, i requires 0 <= i < |chunks| => digest(chunks[i]))
  }

  function Flatten(chunks: seq<Bytes>): Bytes {
    if chunks == [] then [] else chunks[0] + Flatten(chunks[1..])
  }

  /** `div_ceil` and a truncation to 32 bits. */
  function ChunkCountForSize(bytes: nat, size: nat): nat
    requires size > 0
  {
    if bytes == 0 then 1 else ((bytes + size - 1) / size) % 0x1_0000_0000
  }

  // ---- The code ----

  /** Where the loop of `split` stands after `n` rounds. */
  function OffsetAfter(length: nat, size: nat, n: nat): nat {
    if n == 0 then 0
    else if OffsetAfter(length, size, n - 1) >= length then OffsetAfter(length, size, n - 1)
    else Min(OffsetAfter(length, size, n - 1) + size, length)
  }

  ghost predicate SplitEnds(length: nat, size: nat) {
    exists n: nat :: OffsetAfter(length, size, n) >= length
  }

  /** The loop ends exactly if the chunk size is not zero or there is nothing to split. */
  lemma SplitEndsIff(length: nat, size: nat)
    ensures SplitEnds(length, size) <==> size > 0 || length == 0
  {
    if size > 0 || length == 0 {
      OffsetAdvances(length, size, length);
      assert OffsetAfter(length, size, length) >= length;
    } else {
      forall n: nat ensures OffsetAfter(length, size, n) == 0 {
        OffsetStays(length, n);
      }
    }
  }

  lemma {:induction false} OffsetAdvances(length: nat, size: nat, n: nat)
    ensures size > 0 || n == 0 ==> OffsetAfter(length, size, n) >= Min(n, length)
  {
    if n > 0 { OffsetAdvances(length, size, n - 1); }
  }

  lemma {:induction false} OffsetStays(length: nat, n: nat)
    ensures OffsetAfter(length, 0, n) == 0
  {
    if n > 0 { OffsetStays(length, n - 1); }
  }

  /** `split`, for the inputs its loop ends on. */
  method SplitData(digest: Digest, data: Bytes, size: nat) returns (chunks: seq<Bytes>, hashes: seq<Bytes>)
    requires size > 0 || data == []
    ensures chunks == Split(data, size) && hashes == Hashes(digest, chunks)
  {
    chunks, hashes := [], [];
    var offset := 0;
    while offset < |data|
      invariant offset <= |data|
      invariant size > 0 ==> Pieces(data, size) == chunks + Pieces(data[offset..], size)
      invariant |hashes| == |chunks| && forall i :: 0 <= i < |chunks| ==> hashes[i] == digest(chunks[i])
      invariant chunks == [] ==> offset == 0
      invariant data == [] ==> chunks == []
    {
      var end := Min(offset + size, |data|);
      var chunk := data[offset..end];
      NextPiece(data, offset, size, chunks);
      chunks := chunks + [chunk];
      hashes := hashes + [digest(chunk)];
      offset := end;
    }
    if chunks == [] {
      chunks, hashes := [[]], [digest([])];
    }
  }

  lemma NextPiece(data: Bytes, offset: nat, size: nat, done: seq<Bytes>)
    requires size > 0 && offset < |data|
    ensures var end := Min(offset + size, |data|);
            done + Pieces(data[offset..], size) == (done + [data[offset..end]]) + Pieces(data[end..], size)
  {
    var end := Min(offset + size, |data|);
    assert data[offset..][..end - offset] == data[offset..end];
    assert data[offset..][end - offset..] == data[end..];
  }

  // ---- What splitting keeps ----

  lemma {:induction false} PiecesRoundTrip(data: Bytes, size: nat)
    requires size > 0
    ensures Flatten(Pieces(data, size)) == data
    decreases |data|
  {
    if data != [] {
      PiecesRoundTrip(data[Min(size, |data|)..], size);
    }
  }

  /** Nothing is lost, added or reordered: the chunks put together are the data. */
  lemma FlattenAfterSplit(data: Bytes, size: nat)
    requires size > 0
    ensures Flatten(Split(data, size)) == data
  {
    PiecesRoundTrip(data, size);
  }

  /** Where chunk `k` starts: `k` times the chunk size, kept free of products. */
  function Base(k: nat, size: nat): nat {
    if k == 0 then 0 else Base(k - 1, size) + size
  }

  lemma {:induction false} BaseIsProduct(k: nat, size: nat)
    ensures Base(k, size) == k * size
  {
    if k > 0 {
      BaseIsProduct(k - 1, size);
      assert (k - 1) * size + size == k * size;
    }
  }

  lemma {:induction false} BaseMonotone(i: nat, j: nat, size: nat)
    ensures i < j ==> Base(i, size) + size <= Base(j, size)
    decreases j
  {
    if i + 1 < j {
      BaseMonotone(i, j - 1, size);
    }
  }

  /** `a / size` and `a % size`. */
  method Divide(a: nat, size: nat) returns (quotient: nat, remainder: nat)
    requires size > 0
    ensures a == Base(quotient, size) + remainder && remainder < size
  {
    quotient, remainder := a / size, a % size;
    BaseIsProduct(quotient, size);
  }

  /** Chunk `k` is the `k`-th window of `size` bytes, cut off at the end of the data. */
  lemma {:induction false} PieceAt(data: Bytes, size: nat, k: nat)
    requires size > 0 && Base(k, size) < |data|
    ensures k < |Pieces(data, size)|
    ensures Pieces(data, size)[k] == data[Base(k, size)..Min(Base(k, size) + size, |data|)]
    decreases k
  {
    if k > 0 {
      var base := Base(k - 1, size);
      PieceAt(data[size..], size, k - 1);
      SliceOfTail(data, size, base, Min(base + size, |data| - size));
    }
  }

  lemma SliceOfTail(data: Bytes, n: nat, from: nat, to: nat)
    requires n <= |data| && from <= to <= |data| - n
    ensures data[n..][from..to] == data[from + n..to + n]
  {}

  lemma {:induction false} PieceCount(data: Bytes, size: nat)
    requires size > 0
    ensures |Pieces(data, size)| == (|data| + size - 1) / size
    decreases |data|
  {
    if |data| > size {
      PieceCount(data[size..], size);
      assert (|data| + size - 1) / size == (|data| - size + size - 1) / size + 1 by {
        QuotientStep(|data| - 1, size);
      }
    } else if data != [] {
      assert data[|data|..] == [];
      QuotientStep(|data| - 1, size);
    }
  }

  lemma QuotientStep(a: nat, size: nat)
    requires size > 0
    ensures (a + size) / size == a / size + 1
    ensures a < size ==> a / size == 0
  {
    var q, r := a / size, a % size;
    QuotientUnique(a + size, size, q + 1, r);
    if a < size { QuotientUnique(a, size, 0, a); }
  }

  lemma QuotientUnique(a: nat, size: nat, q: nat, r: nat)
    requires size > 0 && r < size && a == q * size + r
    ensures a / size == q && a % size == r
  {
    var d := a / size - q;
    assert d * size == r - a % size;
    assert d > 0 ==> d * size >= size;
    assert d < 0 ==> d * size <= -1 * size;
  }

  /** The recorded chunk count and the one computed from the size agree for data of every size. */
  lemma CountForSizeIsCount(data: Bytes, size: nat)
    requires size > 0
    ensures ChunkCountForSize(|data|, size) == |Split(data, size)| % 0x1_0000_0000
  {
    PieceCount(data, size);
  }
}
