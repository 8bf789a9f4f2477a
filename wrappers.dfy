/** Option and Result, the failure-carrying values of the model. */
module Wrappers {

  /** A value that may be absent; `None` stands for Go's nil interface. */
  datatype Option<+T> = None | Some(value: T)

  /** A value or the error that prevented it, as a Go `(T, error)` pair. */
  datatype Result<+T, +E> = Ok(value: T) | Err(error: E) {

    /** The value half of a Go `(T, error)` return: nil when there is an error. */
    function ValueOrNil(): Option<T> {
      match this
      case Ok(v) => Some(v)
      case Err(_) => None
    }
  }
}
