/** Optional values and the outcome of a call into the backend or the browser. */
module Wrappers {

  /** A value that may be absent (a missing map entry, a `NaN` from a parser). */
  datatype Option<+T> = None | Some(value: T)

  /** What a network round trip (request plus JSON parse) delivered: a value,
      or a failure that the caller catches. */
  datatype Result<+T> = Ok(value: T) | Err
}
