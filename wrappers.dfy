/** Optional values: the model's stand-in for a DOM lookup that may return null. */
module Wrappers {

  datatype Option<+T> = None | Some(value: T)
}
