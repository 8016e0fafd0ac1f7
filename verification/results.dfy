/**
 Failure-compatible wrappers shared by the launcher model: `Option` for the
 C functions that return NULL, and `Result` for call sequences that stop at
 the first failing step (the `goto _return` chains of the injector).
 */
module Results {

  datatype Option<+T> = None | Some(value: T)

  datatype Result<+T, +E> = Ok(value: T) | Err(error: E)
}
