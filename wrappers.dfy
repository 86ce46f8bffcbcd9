/** Failure-compatible results for the operations of the scanner that raise
    Python exceptions. */
module Wrappers {

  /** The Python exceptions the modelled code can raise. */
  datatype Error =
    | StructError   // struct.pack/unpack: a value does not fit its field, or a buffer has the wrong length
    | ValueError    // a rejected port number or port range
    | TypeError     // an operation applied to values of the wrong type

  datatype Result<+T> = Ok(value: T) | Err(error: Error)

  datatype Option<+T> = None | Some(value: T)
}
