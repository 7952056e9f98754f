/** What ends the processing of an upload. In app.py every one of these is an
    exception (or `st.error`) that surfaces as one error message. */
module Errors {

  datatype Error =
    | UnsupportedFormat          // the declared type is none of the four; `df` is then unbound
    | ReadFailed(reason: string) // a parsing library could not decode or open the bytes
    | EmptySheet                 // `data[0]` of a sheet without rows
    | ColumnCount                // `pd.DataFrame` given rows as wide as the header is not
    | MissingColumn(name: string) // `df[name]` with no such column
    | UndefinedName(name: string) // a call of a function that is defined nowhere
}
