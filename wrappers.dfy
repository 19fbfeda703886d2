/** Small optional-value and error-return wrappers shared by the scheduler modules. */
module Wrappers {
  datatype Option<T> = None | Some(value: T)

  /** An operation that either produces a value or stops at a failed
      internal consistency check (an assertion in the scheduler code). */
  datatype Result<T> = Success(value: T) | Failure(reason: string)
}
