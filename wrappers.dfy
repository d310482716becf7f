/** Optional values and SDK call results, shared by the screen and provider modules. */
module Wrappers {

  /** A value that may be absent: JavaScript's `null` / `undefined`. */
  datatype Option<+T> = None | Some(value: T)

  /** The outcome of a call that may throw: the value, or the message of the error thrown. */
  datatype Result<+T> = Ok(value: T) | Err(message: string)
}
