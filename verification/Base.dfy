/** Small vocabulary shared by every component model. */
module Base {

  /** A nullable column or an optional result. */
  datatype Option<+T> = None | Some(value: T)
}
