/** Optional values and success-or-error results, used for the possibly absent
    `tasks` field of a user document and for the exceptions `add_task` raises. */
module Wrappers {

  datatype Option<+T> = None | Some(value: T)

  datatype Result<+R, +E> = Success(value: R) | Failure(error: E)
}
