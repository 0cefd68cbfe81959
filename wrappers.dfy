/** Optional values: JavaScript's `undefined` from `find`, and the `null` price sort. */
module Wrappers {
  datatype Option<+T> = None | Some(value: T)
}
