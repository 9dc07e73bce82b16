/** Optional values: a Java reference field that may still be null. */
module Wrappers {

  datatype Option<+T> = None | Some(value: T)

}
