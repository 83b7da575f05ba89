/** The optional value used for JavaScript's `undefined`/`null` results and
    for the outcomes of foreign calls that may fail. */
module Wrappers {

  datatype Option<+T> = None | Some(value: T)
}
