/** Optional values: a null pointer, a failed lookup, or a call that throws. */
module Wrappers {
  datatype Option<+T> = None | Some(value: T)
}
