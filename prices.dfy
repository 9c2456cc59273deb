/** Daily bars as the scanner reads them, and the `safe_float` guard that
    turns one price cell into a number or nothing. */
module Prices {

  datatype Option<+T> = None | Some(value: T)

  /** The date label of a bar. The model only copies it through. */
  datatype Date = Date(year: int, month: int, day: int)

  /** One cell of a price column. */
  datatype Cell =
    | Number(x: real)   // a finite float
    | NotANumber        // a NaN, which `pd.isna` reports
    | Empty             // `None`
    | Malformed         // a value that `float(...)` refuses

  /** `safe_float`: the cell's number, or None when it is missing, NaN or not convertible. */
  function SafeFloat(c: Cell): (r: Option<real>)
    ensures r.Some? <==> c.Number?
    ensures r.Some? ==> r.value == c.x
  {
    match c
    case Number(x) => Some(x)
    case NotANumber => None
    case Empty => None
    case Malformed => None
  }

  /** One trading day. The close column is never read by the scanner. */
  datatype Bar = Bar(date: Date, open: Cell, high: Cell, low: Cell)
}
