/** Shared outcome types for the model: Python's optional value, and a
    computation that either yields a value or raises one of the exceptions
    the modelled code lets escape. */
module Base {

  datatype Option<+T> = None | Some(value: T)

  /** The Python exceptions that the modelled functions can raise. */
  datatype PyError =
    | KeyError(key: string)
    | ValueError(key: string)
    | TypeError
    | AttributeError
    | IndexError
    | NameError
    | FileNotFound
    | UnboundLocal(variable: string)

  /** The result of evaluating a Python expression: a value, or an exception. */
  datatype Py<+T> = Ok(value: T) | Raise(error: PyError) {

    predicate IsFailure() {
      Raise?
    }

    function PropagateFailure<U>(): Py<U>
      requires Raise?
    {
      Raise(error)
    }

    function Extract(): T
      requires Ok?
    {
      value
    }
  }
}
