/** Outcomes of Python operations: a value, or the exception that was raised. */
module Results {

  datatype Option<+T> = None | Some(value: T)

  /** The Python exception classes the modelled code raises or lets through. */
  datatype Exception =
    | TypeError(msg: string)
    | AttributeError(msg: string)
    | KeyError(key: string)
    | ValueError(msg: string)
    | ImportError(msg: string)
    /** django.core.exceptions.ImproperlyConfigured */
    | ImproperlyConfigured(msg: string)
    /** Any other exception, identified only by a number */
    | OtherException(id: nat)

  /** The outcome of evaluating a Python expression: it returns or it raises. */
  datatype Result<+T> = Ok(value: T) | Err(error: Exception) {

    predicate IsFailure() {
      Err?
    }

    function PropagateFailure<U>(): Result<U>
      requires Err?
    {
      Err(error)
    }

    function Extract(): T
      requires Ok?
    {
      value
    }
  }
}
