/** Facts about sequences that the proofs of the retry model call on
    explicitly, to keep the solver from searching for them. */
module SeqFacts {

  lemma ConcatAssociative<T>(a: seq<T>, b: seq<T>, c: seq<T>)
    ensures (a + b) + c == a + (b + c)
  {
  }
}
