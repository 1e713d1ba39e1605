/** Optional values and results with an error, standing in for Java's null
    and for the exceptions the source lets escape. */
module Wrappers {

  datatype Option<T> = None | Some(value: T)

  /** The only failure the modelled code raises itself. */
  datatype Fault = NullPointer

  datatype Result<T> = Ok(value: T) | Err(fault: Fault)
}
