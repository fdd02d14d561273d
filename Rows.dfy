/** The shape of one parsed CSV row, as `csv.DictReader` yields it. */
module Rows {
  import opened Wrappers

  /** Column name to cell; a cell is `None` when the line ended before it. */
  type CsvRow = map<string, Option<string>>

  /** `row.get(key)`: `None` for an absent column or a missing cell. */
  function Get(row: CsvRow, key: string): Option<string> {
    if key in row then row[key] else None
  }

  /** `row.get(key, default)`: the default only for an absent column. */
  function GetOr(row: CsvRow, key: string, default: string): Option<string> {
    if key in row then row[key] else Some(default)
  }

  /** Python truthiness of an optional string: neither `None` nor `""`. */
  predicate Truthy(v: Option<string>) {
    v.Some? && v.value != ""
  }

  /** A CSV file as `csv.DictReader` sees it: the header (absent for an empty file)
      and the data rows, each holding a cell for every header column. */
  datatype CsvFile = CsvFile(fieldnames: Option<seq<string>>, rows: seq<CsvRow>)
}
