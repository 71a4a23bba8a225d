/** The optional value used throughout: a regular-expression match that may
    fail, an array slot that may be a hole, a `nextType` that may be unset. */
module Options {
  datatype Option<+T> = None | Some(value: T)
}
