/** Small failure-carrying datatypes shared by the other modules. */
module Wrappers {

  /** A value that may be absent: JavaScript's `undefined` / `null` results. */
  datatype Option<+T> = None | Some(value: T)

  /** The result of a computation that either returns normally or throws. */
  datatype Outcome<+T> = Returned(value: T) | Threw
}
