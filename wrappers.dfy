/** Optional values, for results that the manager may or may not have shown. */
module Wrappers {
  datatype Option<+T> = None | Some(value: T)
}
