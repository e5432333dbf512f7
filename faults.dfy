/** The exceptions the modelled Python code can raise, and a result type
    that carries either a value or the exception that ends the call. */
module Faults {

  datatype Fault =
    | KeyError(key: string)     // a dict lookup of a missing key
    | IndexError(index: int)    // a list or string index out of range
    | TypeError                 // a list indexed by something other than an int
    | ValueError(text: string)  // `list.index` of an absent element, or an unparsable number

  datatype Result<+T> = Ok(value: T) | Err(fault: Fault)

  /** A Python value that may be `None`. */
  datatype Option<+T> = None | Some(value: T)
}
