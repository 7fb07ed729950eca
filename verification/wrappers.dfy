/** Small wrapper types shared by the sync model. */
module Wrappers {

  /** A value that may be absent: a missing file, or an operation that raised no error. */
  datatype Option<+T> = None | Some(value: T)

  /** Looks a key up in a map, turning absence into `None`. */
  function Lookup<K, V>(m: map<K, V>, k: K): (r: Option<V>)
    ensures r.Some? <==> k in m
    ensures r.Some? ==> r.value == m[k]
  {
    if k in m then Some(m[k]) else None
  }
}
