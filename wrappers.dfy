/** Small value wrappers shared by the other modules. */
module Wrappers {

  /** A value that may be absent: a missing dictionary key, or the session's empty slot. */
  datatype Option<+T> = None | Some(value: T) {

    /** Python's `d.get(key, default)` once the lookup has been made. */
    function GetOr(default: T): T
    {
      match this
      case Some(v) => v
      case None => default
    }
  }

  /** What a call to the backend came back with: the decoded JSON body of a 2xx
      response, or a failure (timeout, transport error, non-2xx status, bad JSON). */
  datatype Outcome<+T> = Success(value: T) | Failure
}
