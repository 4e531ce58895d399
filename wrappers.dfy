/** Option, standing for JavaScript's `null` (or a missing value) next to a real one. */
module Wrappers {

  datatype Option<+T> = None | Some(value: T)
}
