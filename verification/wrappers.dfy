/** Failure-compatible Option and Result types shared by every module. */
module Wrappers {

  /** An optional value: a missing JSON field, an absent map key; usable with `:-`. */
  datatype Option<+T> = None | Some(value: T) {

    /** The value, or `default` when absent (Rust `unwrap_or`, Python `dict.get(k, d)`). */
    function GetOr(default: T): T {
      match this
      case Some(v) => v
      case None => default
    }

    predicate IsFailure() {
      None?
    }

    function PropagateFailure<U>(): Option<U>
      requires None?
    {
      None
    }

    function Extract(): T
      requires Some?
    {
      value
    }
  }

  /** The outcome of a step that can fail; usable with `:-`. */
  datatype Result<+T, +E> = Success(value: T) | Failure(error: E) {

    predicate IsFailure() {
      Failure?
    }

    function PropagateFailure<U>(): Result<U, E>
      requires Failure?
    {
      Failure(error)
    }

    function Extract(): T
      requires Success?
    {
      value
    }
  }
}
