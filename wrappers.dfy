/** Optional values: JavaScript's `null` / `undefined` and "element not found". */
module Wrappers {

  datatype Option<+T> = None | Some(value: T)
}
