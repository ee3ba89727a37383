/** The optional value of `java.util.Optional` and of nullable references. */
module Wrappers {

  datatype Option<+T> = None | Some(value: T)
}
