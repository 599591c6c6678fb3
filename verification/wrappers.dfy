/** Optional values: a network request that either delivered a value or failed. */
module Wrappers {

  datatype Option<+T> = None | Some(value: T)
}
