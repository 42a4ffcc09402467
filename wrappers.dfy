/** Optional values: JavaScript's `undefined`, `null` and the `-1` of `findIndex`. */
module Wrappers {
  datatype Option<+T> = None | Some(value: T)
}
