/** The optional-value type used for layers that a map may lack and for null results. */
module Wrappers {

  datatype Option<+T> = None | Some(value: T)
}
