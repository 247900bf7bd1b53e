/** Option, as the pages use `undefined` for "no active record". */
module Wrappers {
  datatype Option<+T> = None | Some(value: T)
}

/** What an awaited database write did: resolved, or rejected. */
module Writes {
  datatype WriteOutcome = WriteSucceeded | WriteFailed
}
