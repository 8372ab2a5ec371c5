/** The optional-value datatype used where the source holds `T | null`. */
module Wrappers {

  datatype Option<+T> = None | Some(value: T)
}
