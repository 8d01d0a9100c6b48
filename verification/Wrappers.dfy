/** Shared failure-compatible and optional result types. */
module Wrappers {

  datatype Option<+T> = None | Some(value: T)

}
