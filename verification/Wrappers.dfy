/** A value that may be absent, the result of a call that may fail, and the outcome of a store write. */
module Wrappers {
  datatype Option<+T> = None | Some(value: T)

  datatype Result<+T> = Ok(value: T) | Err(error: string)

  // A write that is stored, one that is lost, and one that is stored but reported as failed.
  datatype Write = Stored | Lost | StoredButFailed {
    predicate Reported() { Stored? }
    predicate Applied() { !Lost? }
  }
}
