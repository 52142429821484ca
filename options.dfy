/** The optional value used for possibly-absent node pointers. */
module Options {

  /** `None` stands for a null pointer, `Some(v)` for a pointer to `v`. */
  datatype Option<+T> = None | Some(value: T)
}
