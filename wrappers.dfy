/** Optional values: `None` stands for a run that the program ends with an exception. */
module Wrappers {
  datatype Option<+T> = None | Some(value: T)
}
