/** The decoded JSON answer of the Open-Meteo API, as far as the download
    scripts look at it: the top-level object members that are themselves
    objects (only "daily" is ever read), and inside "daily" one array per
    variable. Dates inside the arrays are opaque strings; numbers are copied,
    never computed with. */
module Payloads {

  /** One element of a daily array: an ISO date string, a number, or JSON null. */
  datatype Cell = Text(text: string) | Number(value: real) | Null

  type Column = seq<Cell>

  /** The "daily" block: variable name to its array. */
  type Daily = map<string, Column>

  /** The response body: member name to object. */
  type Payload = map<string, Daily>

  /** Python's `daily.get(key, [])`: the array under `key`, or the empty array. */
  function ColumnOr(daily: Daily, key: string): Column
  {
    if key in daily then daily[key] else []
  }

  /** The outcome of an operation that raises in the source. */
  datatype Result<T, E> = Ok(value: T) | Err(error: E)
}
