/** Optional values: JavaScript's `undefined`/`NaN` outcomes become `None`. */
module Wrappers {

  datatype Option<+T> = None | Some(value: T)
}
