/** Optional values and error results, standing in for the `undefined`/`null`
    fields and the `{ data, error }` pairs the application passes around. */
module Wrappers {

  /** An optional value: `None` models a field that is absent or `undefined`. */
  datatype Option<+T> = None | Some(value: T) {

    /** The value, or `default` when there is none. */
    function GetOr(default: T): T
    {
      match this
      case Some(v) => v
      case None => default
    }
  }

  /** Either the data of a successful call or the error it reported. */
  datatype Result<+T, +E> = Success(value: T) | Failure(error: E) {

    predicate IsFailure()
    {
      Failure?
    }
  }
}
