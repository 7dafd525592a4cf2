/** A value that may be missing: a null cell of the data, or a search that found nothing. */
module Wrappers {
  datatype Option<+T> = None | Some(value: T)
}
