/** The Option type used across the model for lookups that may fail. */
module Wrappers {

  datatype Option<+T> = None | Some(value: T)

}
