/** The one failure-compatible wrapper the model needs: a value or nothing (JavaScript's null). */
module Wrappers {

  datatype Option<+T> = None | Some(value: T)

}
