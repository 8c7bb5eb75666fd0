/** The option and result types of the model, and pointwise reading of maps. */
module Wrappers {
  datatype Option<+T> = None | Some(value: T)

  datatype Result<+T, +E> = Ok(value: T) | Err(error: E)

  function Get<K, V>(m: map<K, V>, k: K): Option<V> {
    if k in m then Some(m[k]) else None
  }

  lemma SameMap<K, V>(m: map<K, V>, n: map<K, V>)
    requires forall k :: Get(m, k) == Get(n, k)
    ensures m == n
  {
    assert forall k :: k in m <==> Get(m, k).Some?;
    assert forall k :: k in n <==> Get(n, k).Some?;
    assert forall k | k in m :: Get(m, k) == Some(m[k]) && Get(n, k) == Some(n[k]);
  }

  /** Bookkeeping of a loop over a set: one element goes from what is left to what is done. */
  lemma MoveOne<T>(all: set<T>, done: set<T>, todo: set<T>, x: T)
    requires done !! todo && done + todo == all && x in todo
    ensures (done + {x}) !! (todo - {x}) && (done + {x}) + (todo - {x}) == all
  {
  }
}
