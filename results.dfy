/** Success and failure values shared by the models of the write protocol and the streams. */
module Results {

  /** A value that may be absent, as `Array.prototype.find` answers `undefined`. */
  datatype Option<+T> = None | Some(value: T)

  /** The settled value of a promise or callback: a value, or the error it was rejected with. */
  datatype Result<+T, +E> = Success(value: T) | Failure(error: E)

  /** A completion without a value (`done()` versus `done(error)`). */
  datatype Outcome<+E> = Pass | Fail(error: E)
}
