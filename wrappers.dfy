/** Small failure-carrying datatypes shared by the other modules. */
module Wrappers {

  /** A value that may be absent (JavaScript `undefined`/`null` or `NaN` results). */
  datatype Option<+T> = None | Some(value: T)
}
