/** The optional value shared by the other modules: Go's `(value, error)`
    and "nil or an error" returns become `Some`/`None`. */
module Wrappers {

  datatype Option<+T> = None | Some(value: T)
}
