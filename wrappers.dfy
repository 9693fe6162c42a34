/** The optional value used for DOM lookups that may find nothing and for
    inline style properties that may be unset. */
module Wrappers {

  datatype Option<+T> = None | Some(value: T)
}
