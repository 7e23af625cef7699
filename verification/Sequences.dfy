/** Facts about sequences that Dafny does not supply unasked. */
module Sequences {
  lemma Associates<T>(x: seq<T>, y: seq<T>, z: seq<T>)
    ensures (x + y) + z == x + (y + z)
  {}
}
