/**
  Failure values shared by the training core. Every exception the core
  throws is returned as a value instead: an operation that produces
  something returns a `Result`, an operation that only changes state
  returns an `Outcome`.
 */
module Outcomes {

  /** The exceptions the core raises, by the condition that raises them. */
  datatype Error =
    | IndexOutOfRange        // ArgumentOutOfRangeException: a component or element index outside the collection
    | DimensionMismatch      // ArgumentException "dimensions not match"
    | KeyNotFound            // KeyNotFoundException: reading an attribute that was never set
    | InvalidIterationCount  // ArgumentException: a training run of zero or fewer iterations
    | BmuNotFound            // the debug assertion "bmu not found"

  datatype Result<+T> = Ok(value: T) | Err(error: Error)

  datatype Outcome = Pass | Fail(error: Error)

  datatype Option<+T> = None | Some(value: T)
}
