/** Failure-compatible wrappers: `Option` stands for the source's `T | null`
    (or an optional property), `Result` for an observable that either emits a
    value or errors. */
module Wrappers {

  datatype Option<+T> = None | Some(value: T) {

    /** `x ?? d` in the source: the value when present, else the default. */
    function GetOr(default: T): T {
      match this
      case Some(v) => v
      case None => default
    }
  }

  datatype Result<+R, +E> = Success(value: R) | Failure(error: E) {

    predicate IsFailure() {
      Failure?
    }
  }
}
