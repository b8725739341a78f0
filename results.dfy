/** Optional values and failure-carrying results used throughout the model. */
module Results {

  /** A value that may be absent (pandas' NaN / NaT for a single value). */
  datatype Option<T> = None | Some(value: T)

  /** The outcome of a stage: a value, or the exception the stage raises. */
  datatype Result<T, E> = Ok(value: T) | Err(error: E)
}
