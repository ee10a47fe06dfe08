/** Small failure-carrying datatypes shared by the modules of this model. */
module Wrappers {

  /** A value that may be absent (Python's `None`). */
  datatype Option<+T> = None | Some(value: T) {

    /** The carried value, or `default` when absent. */
    function GetOr(default: T): T {
      match this
      case Some(v) => v
      case None => default
    }
  }

  /** Either a value or the error that prevented computing it. */
  datatype Result<+R, +E> = Ok(value: R) | Err(error: E)
}
