/** The optional value the model uses wherever the source holds `null`,
    `undefined` or a value that may be missing. */
module Wrappers {

  datatype Option<+T> = None | Some(value: T)
}
