/** Optional values and results shared by the rest of the model.
    `None` stands for JavaScript's `null` and `undefined` alike. */
module Wrappers {

  datatype Option<+T> = None | Some(value: T)

  /** The outcome of a computation that can throw instead of producing a value. */
  datatype Result<+R, +E> = Success(value: R) | Failure(error: E)
}
