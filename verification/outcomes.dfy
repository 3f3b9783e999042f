/** Optional values and results with an error message, as the services and the
    view use them (`undefined`, a thrown `Error`). */
module Outcomes {

  datatype Option<T> = None | Some(value: T)
  {
    function GetOr(default: T): (v: T)
      ensures Some? ==> v == value
      ensures None? ==> v == default
    {
      match this
      case Some(x) => x
      case None => default
    }
  }

  /** The value of a promise: resolved with a value or rejected with an error
      whose `message` is the string. */
  datatype Result<T> = Success(value: T) | Failure(message: string)
}
