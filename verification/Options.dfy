/** The optional value a decoder or a lookup may fail to produce. */
module Options {
  datatype Option<+T> = None | Some(value: T)
}
