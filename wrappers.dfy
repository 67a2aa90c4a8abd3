/** Optional values: the model's stand-in for JavaScript's `null` (pending page) and NaN (page input). */
module Wrappers {
  datatype Option<+T> = None | Some(value: T)
}
