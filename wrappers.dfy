/** Failure-carrying datatypes shared by the whole model. */
module Wrappers {

  /** A value that may be absent; for numeric cells `None` is pandas' NaN. */
  datatype Option<+T> = None | Some(value: T)

  /** The outcome of an operation that can raise. */
  datatype Result<+R, +E> = Success(value: R) | Failure(error: E)

  /** The exceptions the modelled code can raise. */
  datatype Error =
    | MissingColumn(name: string)      // KeyError on a column lookup or drop
    | MalformedDate(column: string)    // pd.to_datetime could not parse a cell
    | MalformedNumber(column: string)  // astype(float) could not parse a cell
    | NotText(column: string)          // the .str accessor on a column holding non-string values
    | NonNumeric(column: string)       // a rolling/ewm aggregation over a non-numeric column
}
