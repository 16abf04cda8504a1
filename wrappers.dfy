/** The optional-value datatype shared by every module of the model. */
module Wrappers {

  /** A value that may be absent: JavaScript's `null` where the source returns `T | null`. */
  datatype Option<+T> = None | Some(value: T)

}
