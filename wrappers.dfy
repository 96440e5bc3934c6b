/** Option and Result, as the rest of the model uses them for Python's `None` and raised exceptions. */
module Wrappers {

  /** `None` stands for Python's `None` (or a SQL NULL); `Some(v)` for a present value. */
  datatype Option<+T> = None | Some(value: T) {

    /** The value, or `default` when absent: Python's `d.get(k, default)` once the key is looked up. */
    function GetOr(default: T): T {
      match this
      case Some(v) => v
      case None => default
    }
  }

  /** A computation that either produces a value or raises. */
  datatype Result<+T, +E> = Success(value: T) | Failure(error: E)
}
