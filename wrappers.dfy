/** The optional value used for Python's `None`-able parameters and for the
    existence probe (an instance, or nothing). */
module Wrappers {

  datatype Option<+T> = None | Some(value: T)
}
