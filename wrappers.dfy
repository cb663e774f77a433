/** The optional-value datatype shared by the geometry and fragment modules. */
module Wrappers {
  datatype Option<+T> = None | Some(value: T)
}
