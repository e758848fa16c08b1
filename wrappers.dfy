/** The optional-value datatype shared by the other modules. */
module Wrappers {

  /** `None` stands for a Python `None` or for a call that raises. */
  datatype Option<+T> = None | Some(value: T)
}
