/** Optional values: a JSON field that may be absent, a JavaScript value that may be `undefined`. */
module Wrappers {
  datatype Option<+T> = None | Some(value: T)
}
