/** A value that may be missing: a NULL `char *`, an absent key. */
module Wrappers {

  datatype Option<+T> = None | Some(value: T)
}
