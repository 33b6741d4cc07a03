/** Results of operations that may find nothing or may raise, and what parts of a shared state have in common. */
module Wrappers {
  datatype Option<+T> = None | Some(value: T)

  datatype Result<+T, +E> = Ok(value: T) | Err(error: E)

  /** How a remote call ends: it returns, or it raises before or after taking effect. */
  datatype Outcome = Returns | RaisesBefore | RaisesAfter

  predicate TookEffect(o: Outcome) { o != RaisesBefore }

  /** Nothing has happened to one participant. */
  ghost predicate SameAt<V>(k: nat, before: map<nat, V>, after: map<nat, V>) {
    (k in before <==> k in after) && (k in before && k in after ==> after[k] == before[k])
  }
}
