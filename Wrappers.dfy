/** The optional value the extraction functions return where Python returns `None`. */
module Wrappers {

  datatype Option<+T> = None | Some(value: T)
}
