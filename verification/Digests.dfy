/**
Byte strings and the digest the blob store hashes with. SHA-256 followed by hex encoding is left
uninterpreted: every statement holds for any function to strings of 64 bytes. No such function is
injective, so results that need "no collision" exhibit the colliding pair instead of assuming it away.
*/
module Digests {
  newtype byte = x | 0 <= x < 0x100

  type Bytes = seq<byte>

  /** Hash strings are 64 hexadecimal digits, held as bytes. */
  const DIGEST_LENGTH: nat := 64

  type Digest = Bytes -> Bytes

  ghost predicate FixedWidth(digest: Digest) {
    forall x :: |digest(x)| == DIGEST_LENGTH
  }

  ghost predicate Collision(digest: Digest, x: Bytes, y: Bytes) {
    x != y && digest(x) == digest(y)
  }

  ghost predicate AreHashes(hashes: seq<Bytes>) {
    forall i :: 0 <= i < |hashes| ==> |hashes[i]| == DIGEST_LENGTH
  }
}
