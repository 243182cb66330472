/** Failure-carrying results and the Java exceptions the modelled code can raise. */
module Wrappers {

  /** A value that may be absent: a Java reference that may be null. */
  datatype Option<T> = None | Some(value: T)

  /** The outcome of an operation that either returns a value or throws. */
  datatype Result<T> = Ok(value: T) | Err(error: Exception)

  /** An operation with no result value that may throw. */
  datatype Outcome = Pass | Fail(error: Exception)

  /** The exceptions raised by the modelled code or by the library calls it makes. */
  datatype Exception =
    | NullPointer(message: string)        // java.lang.NullPointerException
    | SingularMatrix                      // commons-math SingularMatrixException
    | DimensionMismatch(left: nat, right: nat) // commons-math DimensionMismatchException
    | IndexOutOfBounds(index: int)        // java.lang.ArrayIndexOutOfBoundsException
    | IllegalArgument(message: string)    // java.lang.IllegalArgumentException
    | ZeroNorm                            // commons-math MathArithmeticException (zero norm)
    | Failure(message: string)            // a plain java.lang.Exception
}
