/** Option, for values a computation may fail to produce. */
module Wrappers {
  datatype Option<+T> = None | Some(value: T)
}
