/** The optional value used for the collaborators' "value or error" results. */
module Wrappers {

  datatype Option<+T> = None | Some(value: T)
}
