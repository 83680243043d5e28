/** The optional value used wherever the source has a nullable type (`Int?`). */
module Wrappers {

  datatype Option<+T> = None | Some(value: T)
}
