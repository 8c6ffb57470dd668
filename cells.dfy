/** The cells of a pandas table, and a table row read by column name. */
module Cells {
  import opened Wrappers

  /** One cell: a string, a number, or a missing value (NaN / None). */
  datatype Cell = Text(s: string) | Number(x: real) | Null

  /** A row of a table as pandas hands it to `iterrows`: column name to cell. */
  type Row = map<string, Cell>

  /** `row.get(key, default)` on a pandas row. */
  function Get(row: Row, key: string, default: Cell): (c: Cell)
    ensures key in row ==> c == row[key]
    ensures key !in row ==> c == default
  {
    if key in row then row[key] else default
  }

  /** A cell holding an optional number: a number, or missing. */
  function FromReal(v: Option<real>): (c: Cell)
    ensures c.Number? <==> v.Some?
    ensures v.Some? ==> c.x == v.value
  {
    match v
    case Some(x) => Number(x)
    case None => Null
  }

  /** A cell holding an optional string: text, or missing. */
  function FromString(v: Option<string>): (c: Cell)
    ensures c.Text? <==> v.Some?
    ensures v.Some? ==> c.s == v.value
  {
    match v
    case Some(s) => Text(s)
    case None => Null
  }
}
