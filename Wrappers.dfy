/** Optional values: the Dafny stand-in for a Kotlin nullable (`T?`). */
module Wrappers {

  datatype Option<+T> = None | Some(value: T)
}
