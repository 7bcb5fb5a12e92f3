/** Option and Result types shared by the model, and the Python exceptions that the
    chart engine can raise, recast as error values. */
module Wrappers {

  datatype Option<+T> = None | Some(value: T)

  /** What Python raises in the chart engine, as a value. */
  datatype Error =
    | EmptyData                // max()/min() of an empty sequence: no data to infer a range from
    | ZeroDivision             // a zero-width data range
    | IndexOutOfRange          // an extended-encoding index outside the 4096-entry table
    | TypeMismatch             // an operation applied to a value of the wrong Python type
    | MissingKey(key: string)  // dictionary lookup of an absent key
    | FormatError              // `%` string formatting with a bad or missing placeholder
    | BadSize                  // `chs` does not split into exactly a width and a height
    | NotByteString            // quoting a character outside the byte range

  datatype Result<+T> = Ok(value: T) | Err(error: Error)

  /** The two copies of the template-tag module differ in a handful of places. */
  datatype Variant = TopLevel | GoogleCharts
}
