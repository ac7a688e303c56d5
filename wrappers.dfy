/** The optional value used for JavaScript's `undefined`/`null` in the resolver. */
module Wrappers {

  datatype Option<+T> = None | Some(value: T)
}
