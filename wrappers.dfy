/** The optional value the scripts express with None, NaN or a missing lookup entry. */
module Wrappers {

  datatype Option<+T> = None | Some(value: T)
}
