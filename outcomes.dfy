/** Failure-carrying values shared by the other modules. */
module Outcomes {

  /** A value that may be absent (a Python call that would raise, an exhausted script). */
  datatype Option<T> = None | Some(value: T)

  /** The outcome of a database driver call: a value, or the text of the driver's `Error`. */
  datatype Result<T> = Ok(value: T) | Err(message: string)
}
