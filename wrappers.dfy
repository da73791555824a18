/** Option and Result values for the places where the source returns `null`,
    leaves a field `undefined`, or throws. */
module Wrappers {

  /** An absent (`undefined`/`null`) or present value. */
  datatype Option<+T> = None | Some(value: T) {

    /** The value if present, else `default`: a field that is present wins,
        as in `x || default` on a defined field or a `...data` spread. */
    function GetOr(default: T): T {
      match this
      case Some(v) => v
      case None => default
    }
  }

  /** The outcome of an operation that may throw. */
  datatype Result<+R, +E> = Success(value: R) | Failure(error: E)
}
