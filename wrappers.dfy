/** The optional value used throughout the model, the counterpart of Rust's `Option<T>`. */
module Wrappers {

  datatype Option<+T> = None | Some(value: T) {

    /** Returns the value inside `Some`, or `default` for `None` (Rust's `unwrap_or`). */
    function UnwrapOr(default: T): T {
      match this
      case Some(v) => v
      case None => default
    }
  }
}
