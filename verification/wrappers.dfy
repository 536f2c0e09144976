/** Optional values, for partial operations such as parsing a number. */
module Wrappers {

  datatype Option<+T> = None | Some(value: T)
}
