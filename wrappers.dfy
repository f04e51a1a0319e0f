/** Small failure-carrying datatypes used across the model. */
module Wrappers {
  /** A value that may be absent (an option left out of an options object, a property never set). */
  datatype Option<T> = None | Some(value: T)

  /**
   * The result of a call that either completes or throws: `Fail` carries the
   * message of the thrown error.
   */
  datatype Outcome<E> = Pass | Fail(error: E)
}
