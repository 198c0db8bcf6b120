/** Option, used where Python answers `None` for "nothing there" and for
    a decoder that may fail. */
module Wrappers {
  datatype Option<+T> = None | Some(value: T)
}
