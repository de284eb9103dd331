/** The optional value used for JavaScript's `null`/`undefined` fields and results. */
module Wrappers {
  datatype Option<T> = None | Some(value: T)
}
