/** Merkle roots and inclusion proofs over chunk hashes (crates/nova-blob/src/merkle.rs). */
module Merkle {
  import opened Digests

  datatype ProofStep = ProofStep(hash: Bytes, isRight: bool)

  // ---- Specification ----

  /** The level above: neighbours hashed in pairs, an odd one out promoted as it is. */
  function NextLevel(digest: Digest, level: seq<Bytes>): (next: seq<Bytes>)
    ensures |next| == (|level| + 1) / 2
  {
    if |level| < 2 then level
    else [digest(level[0] + level[1])] + NextLevel(digest, level[2..])
  }

  function Root(digest: Digest, hashes: seq<Bytes>): Bytes
    decreases |hashes|
  {
    if hashes == [] then digest([])
    else if |hashes| == 1 then hashes[0]
    else Root(digest, NextLevel(digest, hashes))
  }

  /** The path from leaf `i` to the root: its sibling on every level where it has one. */
  function Proof(digest: Digest, hashes: seq<Bytes>, i: nat): seq<ProofStep>
    requires i < |hashes|
    decreases |hashes|
  {
    if |hashes| == 1 then []
    else Sibling(hashes, i) + Proof(digest, NextLevel(digest, hashes), i / 2)
  }

  function Sibling(level: seq<Bytes>, i: nat): seq<ProofStep>
    requires i < |level|
  {
    var sibling := if i % 2 == 0 then i + 1 else i - 1;
    if sibling < |level| then [ProofStep(level[sibling], i % 2 == 0)] else []
  }

  function Combined(hash: Bytes, step: ProofStep): Bytes {
    if step.isRight then hash + step.hash else step.hash + hash
  }

  function Folded(digest: Digest, hash: Bytes, proof: seq<ProofStep>): Bytes
    decreases |proof|
  {
    if proof == [] then hash
    else Folded(digest, digest(Combined(hash, proof[0])), proof[1..])
  }

  // ---- The code ----

  method NextLevelOf(digest: Digest, level: seq<Bytes>) returns (next: seq<Bytes>)
    ensures next == NextLevel(digest, level)
  {
    next := [];
    var i := 0;
    while i < |level|
      invariant i <= |level|
      invariant NextLevel(digest, level) == next + NextLevel(digest, level[i..])
    {
      if i + 1 < |level| {
        NextPair(digest, level, i, next);
        next := next + [digest(level[i] + level[i + 1])];
        i := i + 2;
      } else {
        next := next + [level[i]];
        assert level[i..] == [level[i]] && level[i + 1..] == [];
        i := i + 1;
      }
    }
  }

  lemma NextPair(digest: Digest, level: seq<Bytes>, i: nat, done: seq<Bytes>)
    requires i + 1 < |level|
    ensures done + NextLevel(digest, level[i..])
            == (done + [digest(level[i] + level[i + 1])]) + NextLevel(digest, level[i + 2..])
  {}

  method Build(digest: Digest, hashes: seq<Bytes>) returns (root: Bytes)
    ensures root == Root(digest, hashes)
    ensures hashes == [] ==> root == digest([])
    ensures |hashes| == 1 ==> root == hashes[0]
  {
    if hashes == [] {
      return digest([]);
    }
    var level := hashes;
    while |level| > 1
      invariant level != [] && Root(digest, level) == Root(digest, hashes)
      decreases |level|
    {
      level := NextLevelOf(digest, level);
    }
    root := level[0];
  }

  method Verify(digest: Digest, hash: Bytes, proof: seq<ProofStep>, root: Bytes) returns (ok: bool)
    ensures ok <==> Folded(digest, hash, proof) == root
  {
    var current := hash;
    for n := 0 to |proof|
      invariant Folded(digest, hash, proof) == Folded(digest, current, proof[n..])
    {
      var step := proof[n];
      var combined := if step.isRight then current + step.hash else step.hash + current;
      current := digest(combined);
      assert proof[n..][1..] == proof[n + 1..];
    }
    ok := current == root;
  }

  /** An index beyond the leaves yields the empty proof. */
  method GenerateProof(digest: Digest, hashes: seq<Bytes>, index: nat) returns (proof: seq<ProofStep>)
    ensures proof == if index < |hashes| then Proof(digest, hashes, index) else []
  {
    if index >= |hashes| {
      return [];
    }
    proof := [];
    var level, i := hashes, index;
    while |level| > 1
      invariant 0 <= i < |level|
      invariant proof + Proof(digest, level, i) == Proof(digest, hashes, index)
      decreases |level|
    {
      ghost var before := proof;
      var sibling := if i % 2 == 0 then i + 1 else i - 1;
      if sibling < |level| {
        proof := proof + [ProofStep(level[sibling], i % 2 == 0)];
      }
      assert proof == before + Sibling(level, i);
      ProofStepByStep(digest, before, level, i);
      level := NextLevelOf(digest, level);
      i := i / 2;
    }
  }

  lemma ProofStepByStep(digest: Digest, before: seq<ProofStep>, level: seq<Bytes>, i: nat)
    requires i < |level| && |level| > 1
    ensures i / 2 < |NextLevel(digest, level)|
    ensures before + Proof(digest, level, i)
            == before + Sibling(level, i) + Proof(digest, NextLevel(digest, level), i / 2)
  {}

  // ---- Completeness: every generated proof is accepted ----

  /** Node `k` of the next level joins nodes `2k` and `2k + 1`, if there is one. */
  lemma {:induction false} NextLevelPairs(digest: Digest, level: seq<Bytes>, k: nat)
    requires 2 * k < |level|
    ensures k < |NextLevel(digest, level)|
    ensures NextLevel(digest, level)[k] ==
      if 2 * k + 1 < |level| then digest(level[2 * k] + level[2 * k + 1]) else level[2 * k]
  {
    if k > 0 {
      NextLevelPairs(digest, level[2..], k - 1);
    }
  }

  lemma NextLevelAt(digest: Digest, level: seq<Bytes>, i: nat)
    requires i < |level|
    ensures i / 2 < |NextLevel(digest, level)|
    ensures NextLevel(digest, level)[i / 2] == Folded(digest, level[i], Sibling(level, i))
  {
    var k := i / 2;
    NextLevelPairs(digest, level, k);
    assert i == 2 * k || i == 2 * k + 1;
  }

  lemma {:induction false} FoldedConcat(digest: Digest, hash: Bytes, p: seq<ProofStep>, q: seq<ProofStep>)
    ensures Folded(digest, hash, p + q) == Folded(digest, Folded(digest, hash, p), q)
    decreases |p|
  {
    if p == [] {
      assert p + q == q;
    } else {
      FoldedConcat(digest, digest(Combined(hash, p[0])), p[1..], q);
      assert (p + q)[1..] == p[1..] + q;
    }
  }

  lemma {:induction false} GeneratedProofsVerify(digest: Digest, hashes: seq<Bytes>, i: nat)
    requires i < |hashes|
    ensures Folded(digest, hashes[i], Proof(digest, hashes, i)) == Root(digest, hashes)
    decreases |hashes|
  {
    if |hashes| > 1 {
      var next := NextLevel(digest, hashes);
      NextLevelAt(digest, hashes, i);
      GeneratedProofsVerify(digest, next, i / 2);
      FoldedConcat(digest, hashes[i], Sibling(hashes, i), Proof(digest, next, i / 2));
    }
  }

  // ---- Soundness: what a proof of the generated shape can be accepted for ----

  /** Two proofs that turn the same way at every step. */
  ghost predicate SameTurns(p: seq<ProofStep>, q: seq<ProofStep>) {
    |p| == |q| && forall i :: 0 <= i < |p| ==> p[i].isRight == q[i].isRight && |p[i].hash| == |q[i].hash|
  }

  /** Folding two hashes along proofs of the same shape to one result: the hashes agree, or here is a collision. */
  lemma {:induction false} FoldedInjective(digest: Digest, a: Bytes, p: seq<ProofStep>, b: Bytes, q: seq<ProofStep>)
    returns (x: Bytes, y: Bytes)
    requires |a| == |b| && SameTurns(p, q) && FixedWidth(digest)
    requires Folded(digest, a, p) == Folded(digest, b, q)
    ensures (a == b && p == q) || Collision(digest, x, y)
    decreases |p|
  {
    x, y := [], [];
    if p != [] {
      var ca, cb := Combined(a, p[0]), Combined(b, q[0]);
      x, y := FoldedInjective(digest, digest(ca), p[1..], digest(cb), q[1..]);
      if !Collision(digest, x, y) {
        if ca != cb { return ca, cb; }
        SplitsAlike(a, p[0].hash, b, q[0].hash);
        SplitsAlike(p[0].hash, a, q[0].hash, b);
        assert p == [p[0]] + p[1..] && q == [q[0]] + q[1..];
      }
    }
  }

  lemma SplitsAlike(a: Bytes, s: Bytes, b: Bytes, t: Bytes)
    requires |a| == |b|
    ensures a + s == b + t ==> a == b && s == t
  {
    if a + s == b + t {
      assert a == (a + s)[..|a|] && b == (b + t)[..|a|];
      assert s == (a + s)[|a|..] && t == (b + t)[|a|..];
    }
  }

  lemma {:induction false} ProofHashesAreHashes(digest: Digest, hashes: seq<Bytes>, i: nat)
    requires i < |hashes| && AreHashes(hashes) && FixedWidth(digest)
    ensures forall k :: 0 <= k < |Proof(digest, hashes, i)| ==> |Proof(digest, hashes, i)[k].hash| == DIGEST_LENGTH
    decreases |hashes|
  {
    if |hashes| > 1 {
      NextLevelHashes(digest, hashes);
      ProofHashesAreHashes(digest, NextLevel(digest, hashes), i / 2);
    }
  }

  lemma {:induction false} NextLevelHashes(digest: Digest, level: seq<Bytes>)
    requires AreHashes(level) && FixedWidth(digest)
    ensures AreHashes(NextLevel(digest, level))
  {
    if |level| >= 2 {
      NextLevelHashes(digest, level[2..]);
    }
  }

  /** A proof with the turns of index `i` proves nothing but leaf `i`, unless the digest collides. */
  lemma OnlyTheLeafVerifies(digest: Digest, hashes: seq<Bytes>, i: nat, hash: Bytes, proof: seq<ProofStep>)
    returns (x: Bytes, y: Bytes)
    requires i < |hashes| && AreHashes(hashes) && |hash| == DIGEST_LENGTH && FixedWidth(digest)
    requires SameTurns(proof, Proof(digest, hashes, i))
    requires Folded(digest, hash, proof) == Root(digest, hashes)
    ensures hash == hashes[i] || Collision(digest, x, y)
  {
    GeneratedProofsVerify(digest, hashes, i);
    x, y := FoldedInjective(digest, hash, proof, hashes[i], Proof(digest, hashes, i));
  }

  // ---- What a proof of any shape proves ----

  /** The levels of the tree from the leaves up; from the root on they stay as they are. */
  function Level(digest: Digest, hashes: seq<Bytes>, j: nat): seq<Bytes> {
    if j == 0 then hashes else NextLevel(digest, Level(digest, hashes, j - 1))
  }

  /** The string is node `i` of level `j`. */
  predicate IsNode(digest: Digest, hashes: seq<Bytes>, hash: Bytes, j: nat, i: nat) {
    i < |Level(digest, hashes, j)| && Level(digest, hashes, j)[i] == hash
  }

  lemma {:induction false} LevelFromNext(digest: Digest, hashes: seq<Bytes>, j: nat)
    ensures Level(digest, NextLevel(digest, hashes), j) == Level(digest, hashes, j + 1)
  {
    if j > 0 { LevelFromNext(digest, hashes, j - 1); }
  }

  lemma {:induction false} RootIsNode(digest: Digest, hashes: seq<Bytes>) returns (j: nat)
    requires hashes != []
    ensures Level(digest, hashes, j) == [Root(digest, hashes)]
    decreases |hashes|
  {
    j := 0;
    if |hashes| > 1 {
      j := RootIsNode(digest, NextLevel(digest, hashes));
      LevelFromNext(digest, hashes, j);
      j := j + 1;
    }
  }

  lemma {:induction false} LevelRoot(digest: Digest, hashes: seq<Bytes>, j: nat)
    requires hashes != []
    ensures Level(digest, hashes, j) != [] && Root(digest, Level(digest, hashes, j)) == Root(digest, hashes)
  {
    if j > 0 { LevelRoot(digest, hashes, j - 1); }
  }

  lemma {:induction false} LevelHashes(digest: Digest, hashes: seq<Bytes>, j: nat)
    requires AreHashes(hashes) && FixedWidth(digest)
    ensures AreHashes(Level(digest, hashes, j))
  {
    if j > 0 {
      LevelHashes(digest, hashes, j - 1);
      NextLevelHashes(digest, Level(digest, hashes, j - 1));
    }
  }

  /** Every node of the tree, on whatever level, has a proof that is accepted. */
  lemma NodesVerify(digest: Digest, hashes: seq<Bytes>, hash: Bytes, j: nat, i: nat)
    requires IsNode(digest, hashes, hash, j, i)
    ensures Folded(digest, hash, Proof(digest, Level(digest, hashes, j), i)) == Root(digest, hashes)
  {
    if hashes == [] {
      EmptyLevels(digest, j);
    } else {
      LevelRoot(digest, hashes, j);
      GeneratedProofsVerify(digest, Level(digest, hashes, j), i);
    }
  }

  lemma {:induction false} EmptyLevels(digest: Digest, j: nat)
    ensures Level(digest, [], j) == []
  {
    if j > 0 { EmptyLevels(digest, j - 1); }
  }

  lemma {:induction false} FoldedLast(digest: Digest, hash: Bytes, proof: seq<ProofStep>)
    requires proof != []
    ensures var n := |proof| - 1;
            Folded(digest, hash, proof) == digest(Combined(Folded(digest, hash, proof[..n]), proof[n]))
  {
    var n := |proof| - 1;
    assert proof == proof[..n] + [proof[n]];
    FoldedConcat(digest, hash, proof[..n], [proof[n]]);
  }

  lemma FoldedWidth(digest: Digest, hash: Bytes, proof: seq<ProofStep>)
    requires FixedWidth(digest) && |hash| == DIGEST_LENGTH
    ensures |Folded(digest, hash, proof)| == DIGEST_LENGTH
  {
    if proof != [] { FoldedLast(digest, hash, proof); }
  }

  /** The last step of a proof goes down to one of the two nodes below, or here is a collision. */
  lemma StepDown(digest: Digest, left: Bytes, right: Bytes, hash: Bytes, step: ProofStep)
    requires |left| == |right| == |hash| == DIGEST_LENGTH
    requires digest(Combined(hash, step)) == digest(left + right)
    ensures hash == (if step.isRight then left else right) || Collision(digest, Combined(hash, step), left + right)
  {
    if Combined(hash, step) == left + right {
      if step.isRight {
        SplitsAlike(hash, step.hash, left, right);
      } else {
        assert |step.hash| == |left|;
        SplitsAlike(step.hash, hash, left, right);
      }
    }
  }

  /**
  What leads up to a node started at a node on the way, with nothing left of the proof, or came through a leaf with
  `k` steps left; or here is a collision.
  */
  lemma {:induction false} LeadsUp(digest: Digest, hashes: seq<Bytes>, hash: Bytes, proof: seq<ProofStep>,
                                   j: nat, i: nat)
    returns (low: nat, at: nat, k: nat, x: Bytes, y: Bytes)
    requires AreHashes(hashes) && FixedWidth(digest) && |hash| == DIGEST_LENGTH
    requires IsNode(digest, hashes, Folded(digest, hash, proof), j, i)
    ensures k <= |proof| && (k == 0 || low == 0)
    ensures IsNode(digest, hashes, Folded(digest, hash, proof[..k]), low, at) || Collision(digest, x, y)
    decreases j
  {
    low, at, k, x, y := j, i, |proof|, [], [];
    assert proof[..|proof|] == proof;
    if proof != [] && j > 0 {
      var below, n := Level(digest, hashes, j - 1), |proof| - 1;
      NextLevelPairs(digest, below, i);
      if 2 * i + 1 == |below| {
        low, at, k, x, y := LeadsUp(digest, hashes, hash, proof, j - 1, 2 * i);
      } else {
        var before, step := Folded(digest, hash, proof[..n]), proof[n];
        FoldedLast(digest, hash, proof);
        FoldedWidth(digest, hash, proof[..n]);
        LevelHashes(digest, hashes, j - 1);
        StepDown(digest, below[2 * i], below[2 * i + 1], before, step);
        if Collision(digest, Combined(before, step), below[2 * i] + below[2 * i + 1]) {
          return j, i, 0, Combined(before, step), below[2 * i] + below[2 * i + 1];
        }
        low, at, k, x, y := LeadsUp(digest, hashes, hash, proof[..n], j - 1, if step.isRight then 2 * i else 2 * i + 1);
        assert proof[..n][..k] == proof[..k];
      }
    }
  }

  /** A chunk spells out the two hashes that the first `k` steps of the proof put together last. */
  ghost predicate SpelledOut(digest: Digest, chunk: Bytes, hash: Bytes, proof: seq<ProofStep>, k: nat) {
    0 < k <= |proof| && chunk == Combined(Folded(digest, hash, proof[..k - 1]), proof[k - 1])
  }

  /**
  An accepted proof of any shape, whatever its turns and length, proves that the hash is a node of the tree, not
  necessarily a leaf, or that a chunk spells out two of the hashes on the way; or here is a collision.
  */
  lemma AcceptedProves(digest: Digest, chunks: seq<Bytes>, hashes: seq<Bytes>, hash: Bytes, proof: seq<ProofStep>)
    returns (j: nat, i: nat, k: nat, x: Bytes, y: Bytes)
    requires FixedWidth(digest) && |hash| == DIGEST_LENGTH
    requires |hashes| == |chunks| && forall n :: 0 <= n < |hashes| ==> hashes[n] == digest(chunks[n])
    requires Folded(digest, hash, proof) == Root(digest, hashes)
    ensures || IsNode(digest, hashes, hash, j, i)
            || (hashes == [] && hash == digest([]))
            || (i < |chunks| && SpelledOut(digest, chunks[i], hash, proof, k))
            || Collision(digest, x, y)
  {
    if hashes == [] {
      j, i, k, x, y := 0, 0, 0, [], [];
      if proof != [] {
        FoldedLast(digest, hash, proof);
        FoldedWidth(digest, hash, proof[..|proof| - 1]);
        y := Combined(Folded(digest, hash, proof[..|proof| - 1]), proof[|proof| - 1]);
      }
      return;
    }
    var top := RootIsNode(digest, hashes);
    j, i, k, x, y := LeadsUp(digest, hashes, hash, proof, top, 0);
    if !Collision(digest, x, y) && k > 0 {
      var combined := Combined(Folded(digest, hash, proof[..k - 1]), proof[k - 1]);
      FoldedLast(digest, hash, proof[..k]);
      assert proof[..k][..k - 1] == proof[..k - 1];
      if chunks[i] != combined { x, y := chunks[i], combined; }
    }
  }

  // ---- Binding: the root determines the list ----

  lemma {:induction false} NextLevelInjective(digest: Digest, a: seq<Bytes>, b: seq<Bytes>)
    returns (x: Bytes, y: Bytes)
    requires |a| == |b| && AreHashes(a) && AreHashes(b)
    requires NextLevel(digest, a) == NextLevel(digest, b)
    ensures a == b || Collision(digest, x, y)
  {
    x, y := [], [];
    if |a| >= 2 {
      var na, nb := NextLevel(digest, a), NextLevel(digest, b);
      assert na[0] == nb[0] && na[1..] == nb[1..];
      if a[0] + a[1] != b[0] + b[1] { return a[0] + a[1], b[0] + b[1]; }
      SplitsAlike(a[0], a[1], b[0], b[1]);
      x, y := NextLevelInjective(digest, a[2..], b[2..]);
      assert a == [a[0], a[1]] + a[2..] && b == [b[0], b[1]] + b[2..];
    }
  }

  /** Lists of hashes of equal length with equal roots are equal, or here are two colliding inputs. */
  lemma {:induction false} RootBindsList(digest: Digest, a: seq<Bytes>, b: seq<Bytes>)
    returns (x: Bytes, y: Bytes)
    requires |a| == |b| && AreHashes(a) && AreHashes(b) && FixedWidth(digest)
    requires Root(digest, a) == Root(digest, b)
    ensures a == b || Collision(digest, x, y)
    decreases |a|
  {
    x, y := [], [];
    if |a| == 1 {
      assert a == [a[0]] && b == [b[0]];
    } else if |a| > 1 {
      NextLevelHashes(digest, a);
      NextLevelHashes(digest, b);
      x, y := RootBindsList(digest, NextLevel(digest, a), NextLevel(digest, b));
      if !Collision(digest, x, y) {
        x, y := NextLevelInjective(digest, a, b);
      }
    }
  }

  /** The equal length is needed: any list of two or more shares its root with its own next level. */
  lemma ShorterListWithSameRoot(digest: Digest, hashes: seq<Bytes>)
    requires |hashes| >= 2 && AreHashes(hashes) && FixedWidth(digest)
    ensures var other := NextLevel(digest, hashes);
            other != hashes && AreHashes(other) && Root(digest, other) == Root(digest, hashes)
  {
    NextLevelHashes(digest, hashes);
  }
}
