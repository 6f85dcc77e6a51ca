/** Small value wrappers shared by every module of the model. */
module Wrappers {

  /** A value that may be absent: Python's `None`, JavaScript's `null`. */
  datatype Option<+T> = None | Some(value: T) {

    /** The wrapped value, or `default` when there is none. */
    function GetOr(default: T): T {
      match this
      case Some(v) => v
      case None => default
    }
  }

  /** A key of a JSON request body that may be missing: `'key' in data`. */
  datatype Field<+T> = Absent | Present(value: T) {

    /** The given value, or the current one `kept` when the key is missing. */
    function Or(kept: T): T {
      match this
      case Present(v) => v
      case Absent => kept
    }
  }

  /** A key-value lookup that may miss, as `dict.get` and `localStorage.getItem` do. */
  function Lookup<K, V>(m: map<K, V>, k: K): (r: Option<V>)
    ensures r.Some? <==> k in m
    ensures r.Some? ==> r.value == m[k]
  {
    if k in m then Some(m[k]) else None
  }
}
