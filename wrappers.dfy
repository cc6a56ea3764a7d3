/** Failure-carrying result types shared by the modules of the pipeline. */
module Wrappers {

  datatype Option<+T> = None | Some(value: T)

  /** The Python exceptions the modelled code can raise and does not catch. */
  datatype Error =
    | IndexError          // a list index out of range
    | KeyError            // a dictionary lookup of a missing key
    | ValueError          // a failed unpacking or a failed int()/float() conversion
    | ZeroDivisionError   // a division by zero
    | TypeError           // an unsupported comparison

  datatype Result<+T> = Ok(value: T) | Err(error: Error)
}
