/** Optional values: a C pointer that may be NULL, a call that may fail. */
module Wrappers {
  datatype Option<+T> = None | Some(value: T)
}
