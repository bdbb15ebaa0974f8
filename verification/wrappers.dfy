/** Option and Result, used for absent values and for the error paths of the parsers. */
module Wrappers {

  datatype Option<+T> = None | Some(value: T)

  datatype Result<+T, +E> = Ok(value: T) | Err(error: E)

  /** The first argument if it holds a value, otherwise the second: how a field that a rule
      did not find keeps whatever the record already had. */
  function Or<T>(found: Option<T>, otherwise: Option<T>): (r: Option<T>)
    ensures found.Some? ==> r == found
    ensures found.None? ==> r == otherwise
  {
    if found.Some? then found else otherwise
  }
}
