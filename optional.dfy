/** Optional values and evaluation outcomes shared by the contract models. */
module Optional {

  /** A value that may be absent, used for a strike that a contract may leave unset. */
  datatype Maybe<+T> = None | Some(value: T)

  /** The outcome of an evaluation that can fail with an error of type `E`. */
  datatype Result<+T, +E> = Ok(value: T) | Err(error: E)
}
