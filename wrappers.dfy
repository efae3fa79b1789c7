/** The optional value used where the source holds a record or `null`. */
module Wrappers {

  datatype Option<+T> = None | Some(value: T)
}
