/** Option type used for the operations of the interpreter that report success with 1 and failure with 0. */
module Wrappers {

  datatype Option<+T> = None | Some(value: T)
}
