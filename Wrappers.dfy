/** Failure-compatible wrappers for PHP's nullable results and thrown exceptions. */
module Wrappers {

  datatype Option<+T> = None | Some(value: T)

  /** The PHP exception or engine error classes the core throws or catches. */
  datatype ErrorKind =
    | RecordException      // Gforces\ActiveRecord\Exception / ActiveRecordException
    | ValidationException  // Gforces\ActiveRecord\Exception\Validation
    | ReflectionException  // \ReflectionException
    | EngineError          // \Error: undefined method, uninitialized typed property
    | TypeError            // \TypeError: a value PHP cannot coerce to the declared type

  datatype Error = Error(kind: ErrorKind, message: string)

  /** A value, or the exception that interrupted its computation. */
  datatype Result<+T> = Success(value: T) | Failure(error: Error) {
    predicate IsFailure() { Failure? }

    function PropagateFailure<U>(): Result<U>
      requires Failure?
    {
      Failure(error)
    }

    function Extract(): T
      requires Success?
    {
      value
    }
  }

  /** The outcome of a PHP `void` operation: it returns, or it throws. */
  datatype Outcome = Pass | Fail(error: Error) {
    predicate IsFailure() { Fail? }

    function PropagateFailure(): Outcome
      requires Fail?
    {
      this
    }
  }
}
