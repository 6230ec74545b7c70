/** The optional value used wherever the Python code passes `None` for "absent". */
module Wrappers {

  datatype Option<+T> = None | Some(value: T)
}
