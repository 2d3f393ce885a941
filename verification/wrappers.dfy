/** Optional values and success/error results shared by the page models. */
module Wrappers {

  /** A value that may be missing (a field absent from a stored document). */
  datatype Option<+T> = None | Some(value: T)

  /** The outcome of an operation that the application can refuse with a message. */
  datatype Result<+T> = Ok(value: T) | Err(message: string)
}
