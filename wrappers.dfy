/** The optional value used wherever the configuration has `null`, `false` or an absent setting. */
module Wrappers {

  datatype Option<+T> = None | Some(value: T)
}
