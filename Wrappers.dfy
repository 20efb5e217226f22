/** Option and Result for the source's null returns and thrown exceptions. */
module Wrappers {

  /** A value that may be missing, standing in for a C# null. */
  datatype Option<+T> = None | Some(value: T) {
    function GetOr(default: T): T {
      match this
      case Some(v) => v
      case None => default
    }
  }

  /** The outcome of an operation that returns a value or throws. */
  datatype Result<+T, +E> = Ok(value: T) | Err(error: E)
}
