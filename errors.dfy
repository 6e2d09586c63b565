/** Error kinds raised by the ephemeris engine and by its table generator, and the
    failure-compatible Result and Option types the model returns them in. */
module Errors {

  /** One constructor per distinct throw site of the source. */
  datatype Error =
    | CoeffSizeInvalid       // Chebyshev evaluators: too few coefficients, or order below one
    | MergedSizeInvalid      // merged [lb, ub, coeffs...] overloads: fewer than three entries
    | BelowLowerBound        // Chebyshev evaluators: x below lb by more than the tolerance
    | AboveUpperBound        // Chebyshev evaluators: x above ub by more than the tolerance
    | TimeOutOfRange         // segment lookup: time outside the tables' span
    | UnexpectedCentralBody  // body switches: tag outside the CentralBody enumeration
    | MalformedGroupLine     // header parser: a GROUP line with no second token
    | EmratNotFound          // header parser: no EMRAT name in group 1040
    | EmratValueMissing      // header parser: group 1041 has no token at the EMRAT index
    | HeaderTooSmall         // table parameters: header table lacks the body's column
    | BlockTooShort          // generator: a block without its start and stop dates

  datatype Result<+T> = Ok(value: T) | Err(error: Error) {
    predicate IsFailure() { Err? }

    function PropagateFailure<U>(): Result<U>
      requires Err?
    {
      Err(error)
    }

    function Extract(): T
      requires Ok?
    {
      value
    }
  }

  datatype Option<+T> = None | Some(value: T)
}
