/** Optional values and results with an error, shared by the other modules. */
module Wrappers {

  /** A value that may be absent: JavaScript's `undefined` for a missing
      element or a field left out of a partial record. */
  datatype Option<+T> = None | Some(value: T) {

    /** The value held, or `default` when there is none. */
    function GetOr(default: T): (r: T)
      ensures Some? ==> r == value
      ensures None? ==> r == default
    {
      match this
      case Some(v) => v
      case None => default
    }
  }

  /** The outcome of a computation that may throw. */
  datatype Result<+T, +E> = Ok(value: T) | Err(error: E)
}
