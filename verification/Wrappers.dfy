/** The two small result types used by every component of the model. */
module Wrappers {

  /** A value that may be missing: JavaScript's `null` or `undefined`. */
  datatype Option<+T> = None | Some(value: T)

  /** The outcome of a request: a value, or the name of the error it is answered with. */
  datatype Result<+T> = Ok(value: T) | Err(error: string)
}
