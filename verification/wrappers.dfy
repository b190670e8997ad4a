/** Optional values, standing in for JavaScript's `null`/`undefined` and for
    a failed parse. */
module Wrappers {
  datatype Option<+T> = None | Some(value: T)
}
