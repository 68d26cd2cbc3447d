/** Option and Result values for the missing cells and the raised errors of the dashboard script. */
module Wrappers {

  /** A value that may be missing (pandas' NaN / NaT). */
  datatype Option<+T> = None | Some(value: T)

  /** Either a value or the exception the script would raise. */
  datatype Result<+T, +E> = Ok(value: T) | Err(error: E)
}
