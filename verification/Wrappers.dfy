/** The one generic datatype the other modules share. */
module Wrappers {

  /** std::optional, and "npos" results of the string searches. */
  datatype Option<+T> = None | Some(value: T)
}
