/** Optional values and the outcome of a call that may throw. */
module Wrappers {

  /** Swift's `Optional`: `nil` is `None`. */
  datatype Option<+T> = None | Some(value: T)

  /** The outcome of a Swift `throws` function that returns nothing. */
  datatype Outcome<+E> = Pass | Fail(error: E)
}
