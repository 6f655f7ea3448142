/** Optional values and error-carrying results, standing in for Python's
    `None` defaults and for the exceptions the detector can raise. */
module Wrappers {

  /** A value that may be absent (`None` in the source's keyword arguments). */
  datatype Option<+T> = None | Some(value: T) {

    /** The carried value, or `default` when absent. */
    function GetOr(default: T): T
    {
      match this
      case Some(v) => v
      case None => default
    }
  }

  /** Either a computed value or the error that stopped the computation. */
  datatype Result<+T, +E> = Ok(value: T) | Err(error: E)
}
