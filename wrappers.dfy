/** A value that may be missing: JavaScript's `undefined` for a record field
    that has not been set yet, or the result of a search that found nothing. */
module Wrappers {

  datatype Option<T> = None | Some(value: T)
}
