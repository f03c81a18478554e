/** The rows an XLSX worksheet parses into (sheet_to_json): one map per
    row from column header to cell, where a cell holds text or a number. */
module Sheet {
  import opened Text

  datatype Cell = Str(text: string) | Num(value: int)

  type Row = map<string, Cell>

  /** JavaScript truthiness of `row[column]`: a missing cell, '' and 0 are
      falsy. */
  predicate Truthy(row: Row, column: string) {
    column in row && row[column] != Str("") && row[column] != Num(0)
  }

  /** String(v) for a cell. */
  function CellString(c: Cell): (r: string)
    ensures c.Num? ==> |r| >= 1
  {
    match c
    case Str(t) => t
    case Num(n) => IntToString(n)
  }

  /** String(n) for an integer. */
  function IntToString(n: int): (r: string)
    ensures |r| >= 1
  {
    if n < 0 then "-" + NatToString(-n) else NatToString(n)
  }

  /** `row[column] || ''`, as text: the cell when it is truthy, else ''. */
  function TextOr(row: Row, column: string): (r: string)
    ensures r == "" <==> !Truthy(row, column)
  {
    if Truthy(row, column) then CellString(row[column]) else ""
  }
}
