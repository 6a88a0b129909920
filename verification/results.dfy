/** Failure-carrying values. The allocator reports its failures by raising
    exceptions; the model returns them as values instead. */
module Results {

  datatype Option<+T> = None | Some(value: T)

  /** Either a value or the reason the computation stopped; usable with `:-`. */
  datatype Result<+T, +E> = Ok(value: T) | Err(error: E) {

    predicate IsFailure() {
      Err?
    }

    function PropagateFailure<U>(): Result<U, E>
      requires Err?
    {
      Err(error)
    }

    function Extract(): T
      requires Ok?
    {
      value
    }
  }
}
