/** A value that may be missing: a file that does not exist, a key with no
    entry, a line that yields no property. */
module Wrappers {

  datatype Option<T> = None | Some(value: T) {

    /** The held value, or `fallback` when there is none. */
    function ValueOr(fallback: T): T {
      if Some? then value else fallback
    }
  }

  /** The entry of `m` at `k` if there is one. */
  function Lookup<K, V>(m: map<K, V>, k: K): Option<V> {
    if k in m then Some(m[k]) else None
  }
}
