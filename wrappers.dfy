/** The optional value used for cells that may be missing (pandas NaN) and for results that may be absent. */
module Wrappers {
  datatype Option<+T> = None | Some(value: T)
}
