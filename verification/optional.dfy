/** The "present or absent" value used for position slots and parsed input. */
module Optional {

  /** A value that may be missing: an unplaced position slot, an unparseable number. */
  datatype Option<+T> = None | Some(value: T)
}
