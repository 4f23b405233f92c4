/** Optional values and results shared by the whole model. */
module Wrappers {

  /** A value that may be absent: an update that does not carry a field. */
  datatype Option<+T> = None | Some(value: T) {

    /** The carried value, or `default` when there is none. */
    function GetOr(default: T): T {
      match this
      case Some(v) => v
      case None => default
    }
  }

  /** Either a value or an error, standing for a Python exception. */
  datatype Result<+R, +E> = Success(value: R) | Failure(error: E)
}
