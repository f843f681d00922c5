/** A value that may be missing: null, undefined or no answer in the source. */
module Options {
  datatype Option<+T> = None | Some(value: T)
}
