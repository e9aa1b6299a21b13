/** The optional values of the model: a JSON field that may be missing or null. */
module Optional {

  /** `None` stands for Python's `None`, never for zero. */
  datatype Option<+T> = None | Some(value: T)
}
