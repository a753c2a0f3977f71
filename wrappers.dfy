/** The optional value used wherever the source holds `None` or leaves a key out. */
module Wrappers {

  datatype Option<+T> = None | Some(value: T)
}
