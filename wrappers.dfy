/** Failure-aware results shared by the puzzle models. `None` stands for the
    exception the Python code raises on the same input. */
module Wrappers {

  datatype Option<+T> = None | Some(value: T)
}
