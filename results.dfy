/** Success/failure values for the handlers that can refuse their input. */
module Results {
  datatype Option<+T> = None | Some(value: T)

  /** Pass: the handler went ahead. Fail: it refused and changed nothing (most refusals also show a notification). */
  datatype Outcome<+E> = Pass | Fail(error: E)

  datatype Result<+T, +E> = Ok(value: T) | Err(error: E)
}
