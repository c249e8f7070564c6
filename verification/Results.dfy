/**
 The outcome types that the modelled components share: a value that may be absent, and
 a call that returns a value or raises and returns none.
 */
module Results {

  datatype Option<+T> = None | Some(value: T)

  datatype Result<+T> = Success(value: T) | Failure(error: string)
}
