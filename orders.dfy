/**
 * Visiting orders: the daemon walks sets (of affected button ids, of
 * crashed directories) in an order the model leaves open, and the
 * contracts speak about that order through a ghost sequence.
 */
module Orders {

  /** `order` lists, each once, exactly the elements of `keys` that are no longer in `todo`. */
  ghost predicate Enumerates<T>(order: seq<T>, todo: set<T>, keys: set<T>)
  {
    (forall k | 0 <= k < |order| :: order[k] in keys && order[k] !in todo) &&
    (forall x | x in keys && x !in todo :: x in order) &&
    (forall i, j | 0 <= i < j < |order| :: order[i] != order[j])
  }

  /** Taking one more element out of `todo` and appending it keeps the enumeration. */
  lemma EnumeratesStep<T>(order: seq<T>, todo: set<T>, keys: set<T>, x: T)
    requires Enumerates(order, todo, keys) && todo <= keys && x in todo
    ensures Enumerates(order + [x], todo - {x}, keys)
  {
  }
}
