/** Failure-carrying values shared by the modules of this model. */
module Wrappers {

  /** A value that may be absent: a parse that failed, a line that was skipped. */
  datatype Option<+T> = None | Some(value: T)

  /** The outcome of an operation that raises in the source: `Err` carries the
      message the source puts in its exception. */
  datatype Result<+T> = Ok(value: T) | Err(message: string)
}
