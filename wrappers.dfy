/** The optional value the model returns where the source returns null or leaves an out-array
  * untouched. */
module Wrappers {
  datatype Option<T> = None | Some(value: T)
}
