/** Optional values, for dictionary keys and fields that may be absent. */
module Wrappers {

  datatype Option<+T> = None | Some(value: T)
}
