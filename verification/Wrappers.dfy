/** The stock Option datatype, standing for std::optional and for SQL NULL. */
module Wrappers {
  datatype Option<+T> = None | Some(value: T)
}
