/** Option and Result, the two failure-carrying wrappers the model uses:
    Option for a lookup that may find nothing, Result for an operation that
    throws in the source (the error carries the message or the reason). */
module Wrappers {

  datatype Option<+T> = None | Some(value: T)

  datatype Result<+T, +E> = Ok(value: T) | Err(error: E)
}
