/** The optional and fallible values the other modules share. */
module Wrappers {

  datatype Option<+T> = None | Some(value: T)

  datatype Result<+T> = Success(value: T) | Failure

  /** The entry of `m` at `k`, if there is one. */
  function Get<K, V>(m: map<K, V>, k: K): (r: Option<V>)
    ensures r.Some? <==> k in m
    ensures k in m ==> r.value == m[k]
  {
    if k in m then Some(m[k]) else None
  }
}
