/** The result of a search that may fail: the source signals failure with a sentinel string. */
module Wrappers {

  datatype Option<+T> = None | Some(value: T)

}
