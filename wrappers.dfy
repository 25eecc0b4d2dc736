/** The optional value used throughout the model: a value the page may or may not supply. */
module Wrappers {

  datatype Option<+T> = None | Some(value: T)
}
