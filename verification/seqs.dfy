/** Regrouping of concatenations, which the proofs about the writers need
    whenever a text is built in one nesting and read in another. */
module Seqs {

  lemma Assoc<T>(a: seq<T>, b: seq<T>, c: seq<T>)
    ensures (a + b) + c == a + (b + c)
  {
  }
}
