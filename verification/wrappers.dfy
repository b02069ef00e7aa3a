/** Option, the stand-in for JavaScript's `undefined`/`null`/`false` sentinels,
    and Result, for a call that either returns a value or throws an `Error`
    carrying a message. */
module Wrappers {
  datatype Option<+T> = None | Some(value: T) {
    function GetOr(default: T): T {
      match this
      case Some(v) => v
      case None => default
    }
  }

  datatype Result<+T> = Ok(value: T) | Threw(message: string)
}
