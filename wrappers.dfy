/** The absence-or-value type used for the source's `None` return. */
module Wrappers {

  datatype Option<+T> = None | Some(value: T)
}
