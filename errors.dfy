/** The two failure kinds the matrix container raises, and the result types
    that carry them in place of C++ exceptions. */
module MatErrors {

  /** `std::invalid_argument` and `std::out_of_range`, each with the message
      the container attaches to it. */
  datatype MatError = InvalidArgument(message: string) | OutOfRange(message: string)

  const DimensionsMessage: string := "Number of rows/columns must be higher than 0"
  const RowIndexMessage: string := "Row index out of range"
  const ColumnIndexMessage: string := "Column index out of range"

  /** The value an operation returns, or the error it throws. */
  datatype Result<+R> = Ok(value: R) | Err(error: MatError)

  /** Success or the error thrown, for an operation that returns nothing. */
  datatype Outcome = Pass | Fail(error: MatError)
}
