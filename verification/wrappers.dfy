/** The usual optional-value datatype, used for JavaScript's null/absent results. */
module Wrappers {
  datatype Option<+T> = None | Some(value: T)
}
