/** Optional values and results with an error message, as used across the model. */
module Wrappers {

  /** A JavaScript value that may be `undefined`/`null` (None) or present. */
  datatype Option<+T> = None | Some(value: T) {
    /** `this ?? default` */
    function GetOr(default: T): T {
      match this
      case Some(v) => v
      case None => default
    }
  }

  /** A settled promise: fulfilled with a value or rejected with an error message. */
  datatype Result<+T> = Success(value: T) | Failure(error: string)
}
