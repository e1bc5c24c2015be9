/** Failure-carrying values shared by every service of the lending portal.
    The services signal failure by throwing an `Error` whose message is a
    plain string; here that becomes `Err(message)`. */
module Results {

  /** A value that may be missing: JavaScript's `null` / `undefined`. */
  datatype Option<+T> = None | Some(value: T)

  /** The outcome of an operation that may throw. */
  datatype Result<+T> = Ok(value: T) | Err(message: string)

  /** One atomic step of a stateful operation: the state after the step and
      what the operation returned (or threw). A step that throws leaves the
      state as it found it; every operation states that in its contract. */
  datatype Step<+S, +T> = Step(state: S, result: Result<T>)
}
