/** Optional values, for replies that exist only on some paths. */
module Wrappers {

  datatype Option<+T> = None | Some(value: T)
}
