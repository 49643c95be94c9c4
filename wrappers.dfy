/** Failure-compatible wrappers: an optional value and a value-or-error. */
module Wrappers {

  datatype Option<+T> = None | Some(value: T)

  /** A Python call that either returns a value or raises with a message. */
  datatype Result<+T> = Ok(value: T) | Err(message: string)
}
