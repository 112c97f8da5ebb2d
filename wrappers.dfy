/** Option and Result values: the `undefined` and thrown-exception outcomes of the bimap. */
module Wrappers {

  /** A present value, or the `undefined` a missing property read produces. */
  datatype Option<+T> = None | Some(value: T)

  /** A normal return, or an exception thrown before anything was changed. */
  datatype Result<+T, +E> = Ok(value: T) | Err(error: E)

  /** Reading key `k` of map `m`: `Some` of the entry, or `None` when `k` is absent. */
  function Get<K, T>(m: map<K, T>, k: K): (r: Option<T>)
    ensures r.Some? <==> k in m
    ensures r.Some? ==> r.value == m[k]
  {
    if k in m then Some(m[k]) else None
  }
}
