/** Optional values, used where the source returns a nullable value. */
module Wrappers {

  datatype Option<+T> = None | Some(value: T)
}
