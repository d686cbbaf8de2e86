/** The optional value used wherever the source stores or returns Python's `None`. */
module Wrappers {

  datatype Option<T> = None | Some(value: T)
}
