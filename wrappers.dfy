/** Optional values: a slot that may be empty, a read that may fail. */
module Wrappers {

  datatype Option<+T> = None | Some(value: T)
}
