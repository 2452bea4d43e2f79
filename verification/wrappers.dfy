/** Option type used wherever the Python code raises `ValueError`
    (a value that does not parse) or may return nothing. */
module Wrappers {

  datatype Option<+T> = None | Some(value: T)
}
