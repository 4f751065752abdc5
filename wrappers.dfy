/** Optional values, for JavaScript's `undefined` and for searches that may find nothing. */
module Wrappers {
  datatype Option<+T> = None | Some(value: T)
}
