/** Batches laid end to end, as the archive, the history worker and the traffic pipeline all need them. */
module Sequences {

  function Flat<T>(batches: seq<seq<T>>): seq<T> {
    if batches == [] then [] else Flat(batches[..|batches| - 1]) + batches[|batches| - 1]
  }

  lemma {:induction false} FlatSnoc<T>(batches: seq<seq<T>>, batch: seq<T>)
    ensures Flat(batches + [batch]) == Flat(batches) + batch
  {
    assert (batches + [batch])[..|batches|] == batches;
  }
}
