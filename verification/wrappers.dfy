/** The optional value used for the TypeScript `undefined`/`null` cases. */
module Wrappers {
  datatype Option<+T> = None | Some(value: T)
}
