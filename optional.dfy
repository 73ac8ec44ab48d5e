/** Absent-or-present values: JavaScript's `null`/`undefined` versus a value. */
module Optional {

  datatype Option<+T> = None | Some(value: T)

  /** `Map.prototype.get`: the value stored under `k`, or absent. */
  function Get<K, V>(m: map<K, V>, k: K): (r: Option<V>)
    ensures r.Some? <==> k in m
    ensures r.Some? ==> r.value == m[k]
  {
    if k in m then Some(m[k]) else None
  }
}
