/** Facts about sequences the proofs use as steps. */
module Sequences {
  /** Concatenation is associative; the loop proofs regroup appended pieces with it. */
  lemma AppendAssoc<T>(a: seq<T>, b: seq<T>, c: seq<T>)
    ensures (a + b) + c == a + (b + c)
  {
  }
}
