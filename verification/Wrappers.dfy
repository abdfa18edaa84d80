/** Option and Result, used for missing keys and for raised exceptions. */
module Wrappers {
  datatype Option<+T> = None | Some(value: T)

  datatype Result<+T, +E> = Ok(value: T) | Err(error: E)

  /** The set holding the option's value, if it has one. */
  function Just<T>(o: Option<T>): set<T> {
    match o
    case None => {}
    case Some(v) => {v}
  }
}
