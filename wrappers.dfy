/** An optional value, for JavaScript's "absent" (`undefined`) results. */
module Wrappers {

  datatype Option<+T> = None | Some(value: T)
}
