/** Values that may be missing, and lookups that may fail. */
module Wrappers {

  datatype Option<+T> = None | Some(value: T)

  function Get<V>(m: map<string, V>, key: string): Option<V> {
    if key in m then Some(m[key]) else None
  }
}
