/** Option, Result and Outcome, with the two ways a task mapping can fail. */
module Wrappers {

  /** A Java reference that may be null: None stands for null. */
  datatype Option<+T> = None | Some(value: T)

  /** Why a mapping failed.
      NotFound: a repository lookup came back empty and `orElseThrow()` threw.
      InvalidInput: a value would break a not-null constraint of the entity. */
  datatype Error = NotFound | InvalidInput

  /** A value, or the exception that a mapping step would have thrown. */
  datatype Result<+T> = Ok(value: T) | Err(error: Error) {
    predicate IsFailure() {
      Err?
    }

    function PropagateFailure<U>(): Result<U>
      requires Err?
    {
      Err(error)
    }

    function Extract(): T
      requires Ok?
    {
      value
    }
  }

  /** The result of a mapping that returns nothing (a Java `void` method). */
  datatype Outcome = Pass | Fail(error: Error)
}
