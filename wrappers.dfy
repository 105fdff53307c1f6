/** Present-or-absent values and success-or-failure results.
    `None` stands for JavaScript's `undefined`/`null`. */
module Wrappers {

  datatype Option<+T> = None | Some(value: T) {

    /** The value, or `default` when absent (the `??` operator). */
    function GetOr(default: T): T {
      match this
      case Some(v) => v
      case None => default
    }

    /** This option when present, otherwise `fallback` ("undefined means leave unchanged"). */
    function OrElse(fallback: Option<T>): Option<T> {
      if Some? then this else fallback
    }
  }

  datatype Result<+R, +E> = Ok(value: R) | Err(error: E)
}
