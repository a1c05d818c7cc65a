/** The optional value used wherever the front end may hold `null` or `undefined`. */
module Wrappers {

  datatype Option<+T> = None | Some(value: T)
}
