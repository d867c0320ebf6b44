/** The optional value used wherever the C code writes an out-parameter only on some paths
    or returns NULL for "nothing", and the regrouping of concatenated sequences that the
    proofs about built-up text and logs share. */
module Wrappers {

  datatype Option<+T> = None | Some(value: T)

  /** Concatenation can be regrouped. */
  lemma AppendAssoc<T>(a: seq<T>, b: seq<T>, c: seq<T>)
    ensures a + b + c == a + (b + c)
  {
  }
}
