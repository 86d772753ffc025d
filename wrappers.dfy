/** The optional value both scripts receive from `os.getenv` and from `input()`. */
module Wrappers {

  datatype Option<+T> = None | Some(value: T)
}
