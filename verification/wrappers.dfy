/** The optional value used wherever a script returns or stores `None`. */
module Wrappers {

  datatype Option<+T> = None | Some(value: T)
}
