/** Failure-compatible wrappers and the Python exceptions the modelled code raises. */
module Wrappers {

  datatype Option<+T> = None | Some(value: T) {
    /** The wrapped value, or `default` when there is none. */
    function GetOr(default: T): T {
      if Some? then value else default
    }
  }

  /** The exceptions raised by the modelled operations. */
  datatype Error =
    | ValueError
    | KeyError
    | IndexError
    | AssertionError
    | AttributeError
    | TypeError

  datatype Result<+T> = Ok(value: T) | Err(error: Error)
}
