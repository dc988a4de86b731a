/** Option, standing for a nullable pointer: None is nullptr. */
module Wrappers {

  datatype Option<+T> = None | Some(value: T)
}
