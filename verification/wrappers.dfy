/** Optional values: JavaScript's `undefined` / absent option fields. */
module Wrappers {

  datatype Option<+T> = None | Some(value: T)

}
