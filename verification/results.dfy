/** What an operation hands back to its caller: an optional value, a Go
    `(value, error)` pair, and a step that may also change a table. */
module Results {
  import opened Errors

  datatype Option<+T> = None | Some(value: T)

  /** A Go `(value, error)` pair where exactly one side is set. */
  datatype Result<+T> = Ok(value: T) | Err(error: Error)

  /** A step that may change a table: the table afterwards and what the step returned. */
  datatype Step<+S, +T> = Step(state: S, result: Result<T>)
}
