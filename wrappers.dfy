/** Optional values, standing in for the `null` / `undefined` of the widget's props and fields. */
module Wrappers {
  datatype Option<+T> = None | Some(value: T)
}
