/** The optional value used for the source's "no match" and "raised" outcomes. */
module Wrappers {

  datatype Option<+T> = None | Some(value: T)
}
