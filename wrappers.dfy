/** Option and Result types, and the framework's error taxonomy. */
module Wrappers {

  datatype Option<+T> = None | Some(value: T) {
    function GetOr(default: T): T {
      match this
      case Some(v) => v
      case None => default
    }
  }

  /** The error classes the framework throws (src/common/core/errors). */
  datatype Error =
    | DefinitionError     // a class lacks the decorator it is used as
    | ReflectionError     // expected instance metadata is missing
    | ServerError         // stop() before start()
    | ConfigurationError  // environment or configuration is unusable
    | DatabaseError       // a database operation failed
    | TypeError           // a JavaScript TypeError (binding a non-function)
    | NotImplemented      // `new Error('Method not implemented.')`

  datatype Result<+T> = Ok(value: T) | Err(error: Error) {
    predicate IsFailure() { Err? }
    function PropagateFailure<U>(): Result<U>
      requires Err?
    {
      Err(error)
    }
    function Extract(): T
      requires Ok?
    {
      value
    }
  }

  /** A result carrying no value: an operation that either completes or throws. */
  datatype Outcome = Done | Fail(error: Error) {
    predicate IsFailure() { Fail? }
    function PropagateFailure(): Outcome
      requires Fail?
    {
      this
    }
  }
}
