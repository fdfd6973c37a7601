/** The optional value used wherever the program returns std::optional or throws. */
module Wrappers {
  datatype Option<+T> = None | Some(value: T)
}
