/** Optional values: JavaScript's `null` / absent field, made explicit. */
module Wrappers {

  datatype Option<+T> = None | Some(value: T)
}
