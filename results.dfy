/** The failure-carrying values every stage of the ISS pipeline passes on. */
module Results {

  datatype Option<T> = None | Some(value: T)

  /** What an error-first callback receives: a value, or the message of the
      error it was called with (`err.message`, or the string the pipeline
      builds). */
  datatype Result<T> = Ok(value: T) | Err(message: string)
}
