/** The optional value used for every call into a collaborator that can fail. */
module Wrappers {

  datatype Option<+T> = None | Some(value: T)
}
