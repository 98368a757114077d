/** Optional values: the result of a Java parse that may throw NumberFormatException. */
module Wrappers {

  datatype Option<+T> = None | Some(value: T)

}
