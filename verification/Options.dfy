// The usual optional value, shared by the other modules.
module Options {

  datatype Option<+T> = None | Some(value: T)

  /** What a map holds at a key, if anything. */
  function Lookup<K, V>(m: map<K, V>, k: K): Option<V> {
    if k in m then Some(m[k]) else None
  }
}
