/** Failure values for the operations of the SCD model.  The program
    reports every failure by throwing; each thrown exception becomes an `Err`
    carrying the kind of exception, and every failure ends the run. */
module Results {

  /** The kinds of exception the container code can raise. */
  datatype Error =
    | OutOfRange   // an index, a BitConverter start offset or an Array.Copy range outside its array
    | KeyNotFound  // a lookup of a slot index that has no recorded duration field
    | Overflow     // a negative array size, or a checked sum that leaves the int32 range

  datatype Result<T> = Ok(value: T) | Err(error: Error) {
    predicate IsFailure() { Err? }

    function PropagateFailure<U>(): Result<U>
      requires Err?
    {
      Err(error)
    }

    function Extract(): T
      requires Ok?
    {
      value
    }
  }
}
