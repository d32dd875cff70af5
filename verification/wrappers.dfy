/** Option and Result values used for the lookups that can miss and for the
    exceptions the generator raises. */
module Wrappers {

  datatype Option<+T> = None | Some(value: T)

  datatype Result<+T, +E> = Ok(value: T) | Err(error: E)

  /** The exceptions the generator can raise: its own two, the dictionary
      miss of a table lookup, numpy's out-of-range index, the failures of
      `int` on a bad token or on nan, `int` or `math.ceil` on an infinite
      numpy quotient, and Python's division by zero. */
  datatype Exception =
    | PolyphonyException
    | TorchTowerException
    | KeyError
    | IndexError
    | ValueError
    | OverflowError
    | ZeroDivisionError
}
