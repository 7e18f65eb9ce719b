/** Failure-carrying datatypes shared by every module, and the Python exceptions the
    modelled code can raise or catch. */
module Base {

  datatype Option<+T> = None | Some(value: T)

  datatype Result<+T, +E> = Ok(value: T) | Err(error: E)

  /** The Python exceptions that matter to the modelled code paths. */
  datatype PyError =
    | ValueError          // int() on a malformed literal
    | TypeError           // int() on None, a list or a dict
    | AttributeError      // a method looked up on an object that does not have it
    | UnboundLocalError   // a local read before assignment (in a `finally` block)
    | OverflowError       // timedelta out of range
    | UpdateFailed        // the coordinator's "no fresh data" signal

  /** One byte, as Python's `bytes` elements. */
  type byte = x: int | 0 <= x < 256
}
