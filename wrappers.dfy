/** Optional values: JavaScript's `undefined` / absent keys. */
module Wrappers {

  datatype Option<+T> = None | Some(value: T)
}
