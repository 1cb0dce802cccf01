/** Optional values and results with an error, used for the spreadsheet's
    missing cells and for the report-discovery failure. */
module Wrappers {

  /** A value that may be absent (pandas' NaN / NA). */
  datatype Option<+T> = None | Some(value: T)

  /** Either a computed value or the error that aborts the run. */
  datatype Result<+T, +E> = Success(value: T) | Failure(error: E)
}
