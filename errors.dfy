/** Exceptions raised by the modelled PyDSS code, and the Result/Outcome
    wrappers that carry them instead of raising. */
module Errors {

  /** The key of a failed dictionary lookup (Python `KeyError`). */
  datatype Key = StrKey(s: string) | IntKey(i: int)

  datatype Error =
    /** PyDSS.exceptions.InvalidParameter */
    | InvalidParameter(message: string)
    /** PyDSS.exceptions.InvalidConfiguration */
    | InvalidConfiguration(message: string)
    /** a failed `assert` statement */
    | AssertionFailed(what: string)
    | ZeroDivision
    | KeyError(key: Key)
    | IndexError
    | ValueError(message: string)
    | TypeError(message: string)
    /** `load_data` or an archive member that cannot be read */
    | FileNotFound(path: string)
    /** an archive member that could not be written */
    | WriteFailed(path: string)
    /** the solver raised while running a scenario */
    | SolverFailed(scenario: string)

  datatype Result<+T> = Ok(value: T) | Err(error: Error) {
    predicate IsFailure() { Err? }
    function PropagateFailure<U>(): Result<U>
      requires Err?
    {
      Err(error)
    }
    function Extract(): T
      requires Ok?
    {
      value
    }
  }

  /** The outcome of an operation that returns nothing (Python `None`) or raises. */
  datatype Outcome = Pass | Fail(error: Error) {
    predicate IsFailure() { Fail? }
    function PropagateFailure(): Outcome
      requires Fail?
    {
      this
    }
  }

  datatype Option<+T> = None | Some(value: T)
}
