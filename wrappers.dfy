/** Optional values: the model's stand-in for the source's `null` / `undefined`. */
module Wrappers {

  datatype Option<+T> = None | Some(value: T) {
    function GetOr(default: T): T {
      match this
      case Some(v) => v
      case None => default
    }
  }

  /** The outcome of a store operation that throws on failure in the source. */
  datatype Outcome<+E> = Pass | Fail(error: E)
}
