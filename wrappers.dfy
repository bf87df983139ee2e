/** Option and Result, the two tagged outcomes the program works with
    (Rust's `Option<T>` and `Result<T, E>`). */
module Wrappers {

  datatype Option<+T> = None | Some(value: T) {
    /** `unwrap_or`: the carried value, or `default` when there is none. */
    function UnwrapOr(default: T): (r: T)
      ensures Some? ==> r == value
      ensures None? ==> r == default
    {
      match this
      case Some(v) => v
      case None => default
    }
  }

  datatype Result<+T, +E> = Ok(value: T) | Err(error: E) {
    /** `unwrap_or`: the success value, or `default` on an error. */
    function UnwrapOr(default: T): (r: T)
      ensures Ok? ==> r == value
      ensures Err? ==> r == default
    {
      match this
      case Ok(v) => v
      case Err(_) => default
    }
  }
}
