/** Option and Result values shared by every module of the model.
    `Result` carries the Python exception that the original code raises on
    an error path, so that error paths are modelled rather than excluded. */
module Wrappers {

  datatype Option<T> = None | Some(value: T)

  /** The exceptions the modelled code can raise.  The last three are the
      transport reader's own exception classes and the cycle found while
      ordering a network topologically. */
  datatype Exception =
    | ValueError
    | KeyError
    | IndexError
    | TypeError
    | AttributeError
    | ZeroDivisionError
    | UnboundLocalError
    | BadFileFormat
    | BadNetworkOperation
    | OutOfFuel

  datatype Result<T> = Ok(value: T) | Err(error: Exception)

  /** Concatenation regrouped, for loops that append to a table. */
  lemma AppendAssoc<T>(a: seq<T>, b: seq<T>, c: seq<T>)
    ensures (a + b) + c == a + (b + c)
  {
  }
}
