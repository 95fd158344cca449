/** Option and Result: the null/None of the source's nullable columns and
    dictionary lookups, and the raise-or-return of its operations. */
module Wrappers {

  datatype Option<+T> = None | Some(value: T)

  datatype Result<+T, +E> = Ok(value: T) | Err(error: E)
}
