/** The driver's result and error types. */
module Results {
  import opened I2c

  datatype Option<+T> = None | Some(value: T)

  /** Every error of the driver is a bus error, passed through unchanged. */
  datatype Error = I2C(cause: BusError)

  /** A driver result; failure-compatible, so `:-` propagates the first
      error exactly as the source's `?` does. */
  datatype Result<+T> = Ok(value: T) | Err(error: Error) {
    predicate IsFailure() { Err? }

    function PropagateFailure<U>(): Result<U>
      requires Err?
    {
      Err(error)
    }

    function Extract(): T
      requires Ok?
    {
      value
    }
  }
}
