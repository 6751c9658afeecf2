/** Small value types shared by every module of the model. */
module Wrappers {

  datatype Option<+T> = None | Some(value: T)

  /** The Python exceptions that the modelled code lets escape to its caller. */
  datatype PyError = KeyError | ValueError

  /** The result of a Python call that either returns a value or raises. */
  datatype Outcome<+T> = Ok(value: T) | Raised(error: PyError)

  /** `d[k]` on a `collections.defaultdict` whose factory yields `default`. */
  function GetOr<K, V>(m: map<K, V>, k: K, default: V): (r: V)
  {
    if k in m then m[k] else default
  }
}
