/** Laws of sequences that several proofs need. */
module Sequences {
  /** Concatenation associates. */
  lemma AppendAssociates<T>(a: seq<T>, b: seq<T>, c: seq<T>)
    ensures (a + b) + c == a + (b + c)
  {
  }
}
