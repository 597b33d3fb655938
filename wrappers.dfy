/** Failure-carrying datatypes shared by the ingestion pipeline. */
module Wrappers {

  /** A value that may be absent; also stands for JavaScript's `null`/`undefined`. */
  datatype Option<+T> = None | Some(value: T)

  /**
   * An error raised by the pipeline. The handler's pipeline throws `Error('<code>|<message>')`;
   * a `Failure` keeps the two halves apart and `Thrown` (module Upload) renders them.
   */
  datatype Failure = Failure(code: nat, message: string)

  /** The outcome of an operation that either produces a value or throws. */
  datatype Result<+T> = Ok(value: T) | Err(error: Failure)

  /** The outcome of an operation that produces nothing but may fail with error `E`. */
  datatype Outcome<+E> = Pass | Fail(error: E)
}
