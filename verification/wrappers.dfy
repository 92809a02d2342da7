/** The optional value used where the source returns `None` or a regex match object. */
module Wrappers {

  datatype Option<+T> = None | Some(value: T)

}
