/** Small types shared by every component. */
module Common {
  datatype Option<+T> = None | Some(value: T)

  datatype Result<+T, +E> = Success(value: T) | Failure(error: E)

  /** An instant, in nanoseconds. Go's zero time is 0, and IsZero() is a comparison with it. */
  type Time = int

  const ZERO_TIME: Time := 0

  /** What one call to a remote store did: it worked, it failed without effect, or it took
      effect and the caller was told that it failed. */
  datatype Fault = Works | FailsBefore | FailsAfter {
    predicate Applied() { !FailsBefore? }
    predicate Reported() { !Works? }
  }
}
