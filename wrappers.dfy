/** The optional value used wherever the modelled code returns `None`/`NULL`
    or swallows an exception. */
module Wrappers {
  datatype Option<+T> = None | Some(value: T)
}
