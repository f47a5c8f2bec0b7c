/** Failure-carrying results and the Python exception kinds the modelled code raises. */
module Wrappers {

  datatype Option<+T> = None | Some(value: T)

  /** The exception classes raised by the modelled code.  A `RuntimeError`
      keeps its reason because the adapters raise it for two different
      situations ("Problem is unsat" and "Solver has not been run"). */
  datatype PyError =
    | ValueError
    | TypeError
    | KeyError
    | IndexError
    | AttributeError
    | AssertionError
    | NameError
    | NotImplementedError
    | RuntimeError(reason: string)

  datatype Result<+T> = Ok(value: T) | Err(error: PyError) {
    predicate IsFailure() { Err? }

    function PropagateFailure<U>(): Result<U>
      requires Err?
    {
      Err(error)
    }

    function Extract(): T
      requires Ok?
    {
      value
    }
  }
}
