/** The optional value used where PHP has `null` or "nothing found". */
module Wrappers {

  datatype Option<+T> = None | Some(value: T)
}
