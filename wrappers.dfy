/** The optional value used wherever the handler may find a field missing. */
module Wrappers {

  /** `None` stands for JavaScript's `undefined`: the value is not there. */
  datatype Option<+T> = None | Some(value: T)
}
