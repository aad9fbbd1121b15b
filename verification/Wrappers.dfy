/** The usual optional value, used where the sources return an `ok` flag, nil or undefined. */
module Wrappers {

  datatype Option<+T> = None | Some(value: T)
}
