/** Failure-compatible wrappers shared by every module of the storefront model. */
module Wrappers {

  /** A value that may be absent: JavaScript's `null` / `undefined`. */
  datatype Option<+T> = None | Some(value: T)

  /** The `{ success, data, error }` response objects of the mock API. */
  datatype Result<+T> = Ok(data: T) | Err(error: string)
}
