/** Multipart uploads (crates/nova-blob/src/upload.rs). */
module Uploads {
  import opened Outcomes
  import opened Digests
  import opened Chunks
  import opened Blobs
  import Merkle
  import Sequences

  datatype UploadSession = UploadSession(
    namespace: string,
    blobId: nat,
    totalSize: nat,
    uploadedParts: seq<Bytes>,
    completed: bool,
    aborted: bool,
    createdAt: int)

  /** A session without parts. */
  function NewSession(namespace: string, blobId: nat, declaredSize: nat, now: int): UploadSession {
    UploadSession(namespace, blobId, declaredSize, [], false, false, now)
  }

  lemma {:induction false} FlattenConcat(a: seq<Bytes>, b: seq<Bytes>)
    ensures Flatten(a + b) == Flatten(a) + Flatten(b)
  {
    if a == [] {
      assert a + b == b;
    } else {
      var all := a + b;
      assert all[0] == a[0] && all[1..] == a[1..] + b;
      FlattenConcat(a[1..], b);
      Sequences.Associates(a[0], Flatten(a[1..]), Flatten(b));
    }
  }

  lemma FlattenSnoc(parts: seq<Bytes>, part: Bytes)
    ensures Flatten(parts + [part]) == Flatten(parts) + part
  {
    FlattenConcat(parts, [part]);
    assert Flatten([part]) == part + [];
  }

  lemma FlattenPrefix(parts: seq<Bytes>, n: nat)
    requires n <= |parts|
    ensures |Flatten(parts[..n])| <= |Flatten(parts)|
  {
    FlattenConcat(parts[..n], parts[n..]);
    assert parts[..n] + parts[n..] == parts;
  }

  /** `iter().map(len).sum()`. */
  method SizeOf(parts: seq<Bytes>) returns (size: nat)
    ensures size == |Flatten(parts)|
  {
    size := 0;
    for n := 0 to |parts|
      invariant size == |Flatten(parts[..n])|
    {
      size := size + |parts[n]|;
      FlattenSnoc(parts[..n], parts[n]);
      assert parts[..n + 1] == parts[..n] + [parts[n]];
    }
    assert parts[..|parts|] == parts;
  }

  /** `iter().flat_map(..).collect()`. */
  method Joined(parts: seq<Bytes>) returns (data: Bytes)
    ensures data == Flatten(parts)
  {
    data := [];
    for n := 0 to |parts|
      invariant data == Flatten(parts[..n])
    {
      data := data + parts[n];
      FlattenSnoc(parts[..n], parts[n]);
      assert parts[..n + 1] == parts[..n] + [parts[n]];
    }
    assert parts[..|parts|] == parts;
  }

  class UploadManager {
    var sessions: map<nat, UploadSession>
    const chunkSize: nat
    const maxBlobSize: nat
    const digest: Digest

    /** No open session has collected more than the largest blob, and none is marked completed. */
    ghost predicate Valid()
      reads this
    {
      && chunkSize > 0
      && forall id :: id in sessions ==>
                        !sessions[id].completed && |Flatten(sessions[id].uploadedParts)| <= maxBlobSize
    }

    constructor (digest: Digest, chunkSize: nat, maxBlobSize: nat)
      requires chunkSize > 0
      ensures Valid() && sessions == map[]
      ensures this.digest == digest && this.chunkSize == chunkSize && this.maxBlobSize == maxBlobSize
    {
      this.digest, this.chunkSize, this.maxBlobSize := digest, chunkSize, maxBlobSize;
      sessions := map[];
    }

    /** Both ids are newly drawn UUIDs. */
    method Initiate(uploadId: nat, blobId: nat, namespace: string, declaredSize: nat, now: int)
      requires Valid() && uploadId !in sessions
      modifies this
      ensures Valid()
      ensures sessions == old(sessions)[uploadId := NewSession(namespace, blobId, declaredSize, now)]
      ensures var session := sessions[uploadId];
              && session.namespace == namespace && session.blobId == blobId && session.totalSize == declaredSize
              && session.uploadedParts == [] && !session.completed && !session.aborted && session.createdAt == now
    {
      sessions := sessions[uploadId := UploadSession(namespace, blobId, declaredSize, [], false, false, now)];
    }

    method UploadPart(uploadId: nat, data: Bytes) returns (r: Result<()>)
      requires Valid()
      modifies this
      ensures Valid()
      ensures uploadId !in old(sessions) <==> r == Err(UploadNotFound)
      ensures uploadId in old(sessions) ==>
                var session := old(sessions)[uploadId];
                var all := Flatten(session.uploadedParts) + data;
                && (r.Ok? <==> !session.aborted && |all| <= maxBlobSize)
                && (r.Ok? ==>
                      var extended := session.(uploadedParts := session.uploadedParts + [data]);
                      sessions == old(sessions)[uploadId := extended] && Flatten(extended.uploadedParts) == all)
                && (r.Err? ==> r == Err(if session.aborted then UploadAborted else QuotaExceeded))
      ensures r.Err? ==> sessions == old(sessions)
    {
      if uploadId !in sessions {
        return Err(UploadNotFound);
      }
      var session := sessions[uploadId];
      if session.completed {
        return Err(UploadCompleted);
      }
      if session.aborted {
        return Err(UploadAborted);
      }
      var accumulated := SizeOf(session.uploadedParts);
      if accumulated + |data| > maxBlobSize {
        return Err(QuotaExceeded);
      }
      FlattenSnoc(session.uploadedParts, data);
      sessions := sessions[uploadId := session.(uploadedParts := session.uploadedParts + [data])];
      return Ok(());
    }

    /** The session is gone afterwards even when completing fails. */
    method Complete(uploadId: nat, now: int) returns (r: Result<(BlobMetadata, seq<Bytes>)>)
      requires Valid()
      modifies this
      ensures Valid() && sessions == old(sessions) - {uploadId}
      ensures uploadId !in old(sessions) <==> r == Err(UploadNotFound)
      ensures uploadId in old(sessions) ==>
                var session := old(sessions)[uploadId];
                var data := Flatten(session.uploadedParts);
                && (r.Ok? <==> !session.aborted && |data| == session.totalSize)
                && (r.Err? ==> r == Err(if session.aborted then UploadAborted else SizeMismatch))
                && (r.Ok? ==>
                      && r.value.0.id == session.blobId && r.value.0.namespace == session.namespace
                      && r.value.0.uploadId == Some(uploadId) && r.value.0.createdAt == now
                      && r.value.0.expiresAt == None
                      && r.value.0 == MetaOf(digest, data, chunkSize, session.blobId, session.namespace,
                                             Some(uploadId), now)
                      && r.value.1 == Split(data, chunkSize)
                      && |data| <= maxBlobSize)
    {
      if uploadId !in sessions {
        return Err(UploadNotFound);
      }
      var session := sessions[uploadId];
      sessions := sessions - {uploadId};
      if session.aborted {
        return Err(UploadAborted);
      }
      var actualSize := SizeOf(session.uploadedParts);
      if actualSize != session.totalSize {
        return Err(SizeMismatch);
      }
      var data := Joined(session.uploadedParts);
      var chunks, hashes := SplitData(digest, data, chunkSize);
      var root := Merkle.Build(digest, hashes);
      var meta := BlobMetadata(session.blobId, session.namespace, session.totalSize, digest(data), root,
                               chunkSize, |chunks| % 0x1_0000_0000, hashes, Some(uploadId), now, None);
      return Ok((meta, chunks));
    }

    /** An aborted session stays listed, but takes no part and cannot be completed. */
    method Abort(uploadId: nat) returns (r: Result<()>)
      requires Valid()
      modifies this
      ensures Valid()
      ensures r.Ok? <==> uploadId in old(sessions)
      ensures r.Err? ==> r == Err(UploadNotFound) && sessions == old(sessions)
      ensures r.Ok? ==> sessions == old(sessions)[uploadId := old(sessions)[uploadId].(aborted := true)]
    {
      if uploadId !in sessions {
        return Err(UploadNotFound);
      }
      sessions := sessions[uploadId := sessions[uploadId].(aborted := true)];
      return Ok(());
    }
  }
}
