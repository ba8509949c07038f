/** Optional values: a JavaScript property that may be missing, `null` or `undefined`. */
module Wrappers {
  datatype Option<+T> = None | Some(value: T)
}
