/** Failure-compatible result types used where the source returns null or throws. */
module Wrappers {

  /** `None` stands for the null a reader returns at end of stream. */
  datatype Option<+T> = None | Some(value: T)

  /** `Err` stands for an exception the source raises and does not catch. */
  datatype Result<+T> = Ok(value: T) | Err(message: string)
}
