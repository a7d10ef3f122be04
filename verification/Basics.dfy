/** Optional values, and sequences without repetition. */
module Basics {

  datatype Option<+T> = None | Some(value: T)

  ghost predicate Distinct<T>(items: seq<T>) {
    forall i, j :: 0 <= i < j < |items| ==> items[i] != items[j]
  }

  lemma DistinctPush<T>(items: seq<T>, item: T)
    requires Distinct(items) && item !in items
    ensures Distinct(items + [item])
  {
  }
}
