/** Option and Result, used for the values the script may lack and for its rejections. */
module Wrappers {

  /** A value that may be absent (`null`/`undefined` in the script). */
  datatype Option<+T> = None | Some(value: T)

  /** The settled state of a promise: resolved with a value, or rejected with an error. */
  datatype Result<+R, +E> = Success(value: R) | Failure(error: E)
}
