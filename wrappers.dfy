/** An optional value: the model's stand-in for a Java or JavaScript reference that may be null. */
module Wrappers {

  datatype Option<+T> = None | Some(value: T)
}
