/** Result and option types shared by every component. */
module Outcomes {

  /** A service call ends with a value or throws an error carrying a code. */
  datatype Result<+T> = Success(value: T) | Failure(error: string)

  /** A value that may be absent (`null` or `undefined` in the services). */
  datatype Option<+T> = None | Some(value: T)

  /** The error of an update whose `where` clause, id and row version, matches no row. */
  const RECORD_NOT_FOUND := "P2025"
}
