/** A value that may be missing: null pointers, absent branches and entries that were never made. */
module Options {
  datatype Option<+T> = None | Some(value: T)
}
