/** The failures the calculator reports, and the wrappers its transitions return.
    Each error constructor stands for one exception the calculator raises. */
module Results {

  /** InvalidParams: a parameter handed to perform is not a number.
      OperationNotFound: the registry has no operation of the requested name
      (the key lookup fails).
      InvalidOperation: add was handed something that is not a dict. */
  datatype Error = InvalidParams | OperationNotFound | InvalidOperation

  /** Either the value a transition produced or the error it raised. */
  datatype Result<+T> = Ok(value: T) | Err(error: Error)

  /** A value that may be absent: None is the no-op answer of repeat. */
  datatype Option<+T> = None | Some(value: T)
}
