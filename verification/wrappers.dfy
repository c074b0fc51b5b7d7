/** Option, Result and Outcome: the "undefined", "thrown" and "returned" cases of the
    JavaScript code, written as values. */
module Wrappers {

  /** `None` stands for JavaScript's `undefined` when it is an argument or a sprite
      property, and for `null` when it is the selector's `event_info`. */
  datatype Option<+T> = None | Some(value: T) {
    function GetOr(default: T): T {
      match this
      case Some(v) => v
      case None => default
    }
  }

  /** A call that either returns `value` or throws `error`. */
  datatype Result<+R, +E> = Success(value: R) | Failure(error: E)

  /** A call without a result that either completes or throws `error`. */
  datatype Outcome<+E> = Pass | Fail(error: E)

  /** The only exception the modelled code throws: a JavaScript `TypeError` with its message. */
  datatype TypeError = TypeError(message: string)
}
