/** The optional value a sensor read returns: Python's `None` or a reading. */
module Options {

  datatype Option<+T> = None | Some(value: T)
}
