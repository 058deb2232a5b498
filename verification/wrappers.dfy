/** The two shapes of partial answers used throughout the engine. */
module Wrappers {

  /** An absent dict key, an empty queue or an unset field is `None`. */
  datatype Option<+T> = None | Some(value: T) {
    /** `dict.get(key, default)`: the value when present, `default` otherwise. */
    function GetOr(default: T): T {
      match this
      case Some(v) => v
      case None => default
    }
  }

  /** A call that returns `value` or raises `error`. */
  datatype Result<+R, +E> = Success(value: R) | Failure(error: E)
}
