/** Optional values, as returned by the iterators and lookups of the core. */
module Wrappers {
  datatype Option<+T> = None | Some(value: T)
}
