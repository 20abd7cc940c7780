/** Option and Result values shared by the modules of this model, and the
    JavaScript `text || fallback` idiom the source uses for user-facing
    messages. */
module Wrappers {

  datatype Option<+T> = None | Some(value: T) {

    /** The value held in Some, or `default` for None. */
    function GetOr(default: T): T {
      match this
      case Some(v) => v
      case None => default
    }
  }

  /** The outcome of a promise: resolved with a value or rejected with a reason. */
  datatype Result<+R, +E> = Success(value: R) | Failure(error: E)

  /** `message || fallback` for a string that may be absent: an absent or
      empty message is falsy in JavaScript, so the fallback is used for both. */
  function MessageOr(message: Option<string>, fallback: string): (r: string)
    ensures message.Some? && message.value != "" ==> r == message.value
    ensures message.None? || message.value == "" ==> r == fallback
    ensures fallback != "" ==> r != ""
  {
    if message.Some? && message.value != "" then message.value else fallback
  }
}
