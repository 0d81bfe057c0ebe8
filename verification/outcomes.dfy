/** Optional values and fallible results shared by every module of the model.
    A `Failure` carries the message the application would surface (an
    `Error.message` in the TypeScript code). */
module Outcomes {

  /** A value that may be absent (`null` / `undefined` in the source). */
  datatype Option<+T> = None | Some(value: T)

  /** Either a value or an error message. */
  datatype Result<+T> = Success(value: T) | Failure(error: string)
}
