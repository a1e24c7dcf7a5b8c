/** The two ways the core reports an absent value or a failure without raising: a lookup that
    finds nothing, and an operation that returns an error message instead of a value. */
module Wrappers {

  datatype Option<T> = None | Some(value: T)

  datatype Result<T> = Ok(value: T) | Err(message: string)

  /** A lookup by primary key. */
  function Get<K, V>(m: map<K, V>, k: K): Option<V> {
    if k in m then Some(m[k]) else None
  }
}
