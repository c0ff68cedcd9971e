/** Optional values, used where the source signals absence with a sentinel. */
module Wrappers {
  datatype Option<T> = None | Some(value: T)
}
