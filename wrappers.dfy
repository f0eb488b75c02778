/** The optional value used wherever the C++ code returns a null pointer or
    a rejected result. */
module Wrappers {
  datatype Option<T> = None | Some(value: T)
}
