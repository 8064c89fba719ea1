/** Failure-carrying wrappers shared by the dispatcher model.
    The Go code reports every failure by printing help and exiting; the model
    returns these values instead and lets the entry point turn them into an
    exit outcome. */
module Results {

  /** An optional value, used for the `(value, err)` pairs of `strconv`. */
  datatype Option<+T> = None | Some(value: T)

  /** Either a value or the failure that stopped the computation. */
  datatype Result<+T, +E> = Ok(value: T) | Err(error: E)
}
