/** Optional values and results with an error, as the route handlers use them:
    an absent request field or a null column is `None`, an error response is `Failure`. */
module Wrappers {

  datatype Option<+T> = None | Some(value: T) {

    /** The value, or `default` when absent. */
    function GetOr(default: T): T {
      match this
      case Some(v) => v
      case None => default
    }
  }

  datatype Result<+R, +E> = Success(value: R) | Failure(error: E)

  /** A query-string value that JavaScript treats as true: present and not empty. */
  predicate Given(p: Option<string>) {
    p.Some? && p.value != ""
  }
}
