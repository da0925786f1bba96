/** Option and Result, shaped after Rust's, with the combinators the entry
    classifier uses (`ok_or`, `unwrap_or`) and support for `:-`, which plays
    the part of Rust's `?` operator. */
module Wrappers {

  datatype Option<+T> = None | Some(value: T) {

    /** Rust's `Option::ok_or`: `Some(v)` becomes `Ok(v)`, `None` becomes `Err(error)`. */
    function OkOr<E>(error: E): Result<T, E> {
      match this
      case Some(v) => Ok(v)
      case None => Err(error)
    }

    /** Rust's `Option::unwrap_or`; the default is an already evaluated value. */
    function UnwrapOr(default: T): T {
      match this
      case Some(v) => v
      case None => default
    }
  }

  datatype Result<+T, +E> = Ok(value: T) | Err(error: E) {

    predicate IsFailure() {
      Err?
    }

    function PropagateFailure<U>(): Result<U, E>
      requires Err?
    {
      Err(error)
    }

    function Extract(): T
      requires Ok?
    {
      value
    }
  }
}
