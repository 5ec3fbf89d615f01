/** The two wrappers the model uses: Option for a value that may be missing,
    Result for an operation that may fail with an error. */
module Wrappers {
  datatype Option<+T> = None | Some(value: T)

  datatype Result<+T, +E> = Ok(value: T) | Err(error: E)
}
