/** Option and Result values, and the Python exceptions the partitioner raises. */
module Wrappers {

  datatype Option<+T> = None | Some(value: T)

  /** The exceptions the modelled code can raise. */
  datatype Exception =
    | ValueError           // total rank count not divisible by 6
    | ZeroDivisionError    // a rank count of zero used as a divisor
    | NotImplementedError  // unsupported rotation count or dimension ordering
    | IndexError           // a list or array indexed out of range
    | AttributeError       // `.to_rank` read from a list of boundaries

  datatype Result<+T> = Success(value: T) | Failure(error: Exception)
}
