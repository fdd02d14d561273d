/**
 * The DGCI&S (Tradestat) loader: export rows parsed into records with the
 * USD/INR completion from the monthly rate, the valid records collected in file
 * order, and the load loop that upserts each product once and inserts every
 * record.
 */
module Dgcis {
  import opened Wrappers
  import opened Strings
  import opened Rows
  import opened Normalize
  import Forex
  import opened Db

  /** One parsed export row. */
  datatype Record = Record(
    hsCode: string,
    title: string,
    description: string,
    sectors: seq<string>,
    year: int,
    month: int,
    valueInr: Option<real>,
    valueUsd: Option<real>,
    fxRate: Option<real>,
    qty: Option<real>,
    partner: Option<string>)

  /** The required columns, in sorted order (the order of the error message). */
  const RequiredColumns: seq<string> := ["hs_code", "month", "value_inr", "year"]

  /** The required columns missing from the header, sorted. */
  function MissingColumns(fieldnames: Option<seq<string>>): (missing: seq<string>)
    ensures forall c :: c in missing <==> c in RequiredColumns && (fieldnames.None? || c !in fieldnames.value)
  {
    var names := fieldnames.GetOr([]);
    (if "hs_code" in names then [] else ["hs_code"])
    + (if "month" in names then [] else ["month"])
    + (if "value_inr" in names then [] else ["value_inr"])
    + (if "year" in names then [] else ["year"])
  }

  /** `_to_float(key)`: an absent or empty cell, or one `float` rejects, is `None`. */
  function ToFloat(row: CsvRow, key: string): (r: Option<real>)
    ensures Get(row, key).None? || Get(row, key).value == "" ==> r.None?
    ensures r.Some? ==> ParseFloat(Get(row, key).value) == r
    ensures Get(row, key).Some? && Get(row, key).value != "" ==> r == ParseFloat(Get(row, key).value)
  {
    var v := Get(row, key);
    if v.None? || v.value == "" then None else ParseFloat(v.value)
  }

  const DivisionByZero: string := "float division by zero"

  /**
   * The currency completion: with a rate, a missing INR value is the USD value
   * times the rate, and a missing USD value the INR value divided by it (which
   * raises for a zero rate). Returns `(value_inr, value_usd)`.
   */
  function Complete(inr: Option<real>, usd: Option<real>, rate: Option<real>): Result<(Option<real>, Option<real>)> {
    if rate.None? then Ok((inr, usd))
    else if inr.None? && usd.Some? then Ok((Some(usd.value * rate.value), usd))
    else if usd.None? && inr.Some? then
      if rate.value == 0.0 then Err(DivisionByZero) else Ok((inr, Some(inr.value / rate.value)))
    else Ok((inr, usd))
  }

  /**
   * Without a rate nothing is converted; with one, a value already present is kept,
   * the missing one is filled in so that `inr == usd * rate`, and only a USD value
   * computed from a zero rate fails.
   */
  lemma CompleteSpec(inr: Option<real>, usd: Option<real>, rate: Option<real>)
    ensures rate.None? ==> Complete(inr, usd, rate) == Ok((inr, usd))
    ensures Complete(inr, usd, rate).Err? <==> rate == Some(0.0) && inr.Some? && usd.None?
    ensures Complete(inr, usd, rate).Ok? ==>
      var v := Complete(inr, usd, rate).value;
      && (inr.Some? ==> v.0 == inr)
      && (usd.Some? ==> v.1 == usd)
      && (rate.Some? && (inr.Some? || usd.Some?) ==> v.0.Some? && v.1.Some?)
      && (rate.Some? && (inr.None? != usd.None?) ==> v.0.value == v.1.value * rate.value)
  {
    if rate.Some? && usd.None? && inr.Some? && rate.value != 0.0 {
      var x := inr.value / rate.value;
      assert x * rate.value == inr.value;
    }
  }

  /** `forex.monthly_rate` as the loader sees it: a rate or the error it raises. */
  type RateLookup = (int, int) -> Result<real>

  /** The lookup over the rates file at `path` (`None` when the file does not exist). */
  function RatesFrom(path: string, rates: Option<Forex.RateFile>): RateLookup {
    (year: int, month: int) => Forex.MonthlyRateOf(path, rates, year, month)
  }

  /** The rate of the month, or `None` when the lookup raises. */
  function RateOf(rateOf: RateLookup, year: int, month: int): (r: Option<real>)
    ensures r.Some? <==> rateOf(year, month).Ok?
    ensures r.Some? ==> r.value == rateOf(year, month).value
  {
    match rateOf(year, month)
    case Ok(x) => Some(x)
    case Err(_) => None
  }

  /** `(row.get(key) or "").strip()`. */
  function StrippedText(row: CsvRow, key: string): string {
    var v := Get(row, key);
    if v.None? then "" else Strip(v.value)
  }

  /** The code, year and month of a row, when all three parse. */
  function RowKey(row: CsvRow): Option<(string, int, int)> {
    var code := CanonicalHsCode(Get(row, "hs_code"), Normalize.DefaultGranularity);
    var y := Get(row, "year");
    var m := Get(row, "month");
    if code.None? || y.None? || m.None? then None
    else
      match (ParseInt(y.value), ParseInt(m.value))
      case (Some(year), Some(month)) => Some((code.value, year, month))
      case _ => None
  }

  /** `_parse_row`: `Ok(None)` for a dropped row, an error for a zero rate that
      had to divide. */
  function ParseRow(row: CsvRow, rateOf: RateLookup): Result<Option<Record>> {
    match RowKey(row)
    case None => Ok(None)
    case Some(key) =>
      var (code, year, month) := key;
      var inr := ToFloat(row, "value_inr");
      var usd := ToFloat(row, "value_usd");
      var qty := ToFloat(row, "qty");
      var partner := if Rows.Truthy(Get(row, "partner_country")) then Get(row, "partner_country") else None;
      var title := StrippedText(row, "title");
      var description := StrippedText(row, "description");
      var listed := ParseCsvSectors(GetOr(row, "sectors", ""));
      var sectors := if listed != [] then listed else InferredSectors([Plain(title), Plain(description)]);
      var rate := RateOf(rateOf, year, month);
      if inr.None? && usd.None? then Ok(None)
      else
        match Complete(inr, usd, rate)
        case Err(e) => Err(e)
        case Ok(values) =>
          Ok(Some(Record(code, if title != "" then title else "HS " + code, description, sectors,
                         year, month, values.0, values.1, rate, qty, partner)))
  }

  /**
   * A row is dropped iff its code does not canonicalise, its year or month is not
   * an integer, or it has neither value; it fails only when a USD value must be
   * divided out of a zero rate. A kept record carries the row's code, month and
   * rate, and the completed values (unconverted when the rate lookup failed).
   */
  lemma ParseRowSpec(row: CsvRow, rateOf: RateLookup)
    ensures var inr := ToFloat(row, "value_inr"); var usd := ToFloat(row, "value_usd");
      ParseRow(row, rateOf) == Ok(None) <==> RowKey(row).None? || (inr.None? && usd.None?)
    ensures ParseRow(row, rateOf).Err? ==> (RowKey(row).Some? &&
      RateOf(rateOf, RowKey(row).value.1, RowKey(row).value.2) == Some(0.0) &&
      ToFloat(row, "value_usd").None? && ToFloat(row, "value_inr").Some?)
    ensures ParseRow(row, rateOf).Ok? && ParseRow(row, rateOf).value.Some? ==>
      var r := ParseRow(row, rateOf).value.value;
      var key := RowKey(row).value;
      && r.hsCode == key.0 && r.year == key.1 && r.month == key.2
      && |r.hsCode| == Normalize.DefaultGranularity && AllDigits(r.hsCode)
      && r.fxRate == RateOf(rateOf, key.1, key.2)
      && Complete(ToFloat(row, "value_inr"), ToFloat(row, "value_usd"), r.fxRate) == Ok((r.valueInr, r.valueUsd))
      && (r.fxRate.None? ==> r.valueInr == ToFloat(row, "value_inr") && r.valueUsd == ToFloat(row, "value_usd"))
      && r.title != "" && r.sectors != []
  {
    if RowKey(row).Some? {
      CompleteSpec(ToFloat(row, "value_inr"), ToFloat(row, "value_usd"), RateOf(rateOf, RowKey(row).value.1, RowKey(row).value.2));
    }
  }

  /** Every row parsed, in file order. */
  function ParseRows(rows: seq<CsvRow>, rateOf: RateLookup): (r: seq<Result<Option<Record>>>)
    ensures |r| == |rows| && forall i :: 0 <= i < |rows| ==> r[i] == ParseRow(rows[i], rateOf)
  {
    seq(|rows|, i requires 0 <= i < |rows| => ParseRow(rows[i], rateOf))
  }

  function NoValidRows(path: string): string {
    "DGCI&S file " + path + " did not yield any valid rows"
  }

  /** `load_csv` over an already-read file: the header check, then the valid records in order. */
  function LoadCsv(path: string, file: CsvFile, rateOf: RateLookup): Result<seq<Record>> {
    var missing := MissingColumns(file.fieldnames);
    if missing != [] then Err("DGCI&S file missing required columns: " + Join(missing, ", "))
    else
      match Gather(ParseRows(file.rows, rateOf))
      case Err(e) => Err(e)
      case Ok(records) => if records == [] then Err(NoValidRows(path)) else Ok(records)
  }

  /**
   * `load_csv` raises for a missing required column, for a failing row and when no
   * row is kept.
   */
  lemma LoadCsvSpec(path: string, file: CsvFile, rateOf: RateLookup)
    ensures MissingColumns(file.fieldnames) != [] ==> LoadCsv(path, file, rateOf).Err?
    ensures LoadCsv(path, file, rateOf).Ok? <==>
      && MissingColumns(file.fieldnames) == []
      && (forall i :: 0 <= i < |file.rows| ==> ParseRow(file.rows[i], rateOf).Ok?)
      && (exists i :: 0 <= i < |file.rows| && ParseRow(file.rows[i], rateOf).Ok? && ParseRow(file.rows[i], rateOf).value.Some?)
  {
    var parsed := ParseRows(file.rows, rateOf);
    GatherSpec(parsed);
    if Gather(parsed).Ok? {
      GatherNonEmpty(parsed);
    }
  }

  /** A successful `load_csv` returns exactly the kept records, never none. */
  lemma LoadCsvContents(path: string, file: CsvFile, rateOf: RateLookup)
    requires LoadCsv(path, file, rateOf).Ok?
    ensures LoadCsv(path, file, rateOf).value != []
    ensures forall x :: x in LoadCsv(path, file, rateOf).value <==>
      exists i :: 0 <= i < |file.rows| && ParseRow(file.rows[i], rateOf) == Ok(Some(x))
  {
    GatherSpec(ParseRows(file.rows, rateOf));
  }

  /** The loop of `load_csv`. */
  method LoadCsvFrom(path: string, file: CsvFile, rateOf: RateLookup) returns (r: Result<seq<Record>>)
    ensures r == LoadCsv(path, file, rateOf)
  {
    var missing := MissingColumns(file.fieldnames);
    if missing != [] {
      return Err("DGCI&S file missing required columns: " + Join(missing, ", "));
    }
    ghost var parsed := ParseRows(file.rows, rateOf);
    var records: seq<Record> := [];
    var i := 0;
    while i < |file.rows|
      invariant 0 <= i <= |file.rows|
      invariant Gather(parsed[..i]) == Ok(records)
    {
      var record := ParseRow(file.rows[i], rateOf);
      assert parsed[..i + 1][..i] == parsed[..i];
      if record.Err? {
        GatherErrorSticks(parsed, i + 1);
        return Err(record.error);
      }
      if record.value.Some? {
        records := records + [record.value.value];
      }
      i := i + 1;
    }
    assert parsed[..i] == parsed;
    if records == [] {
      return Err(NoValidRows(path));
    }
    return Ok(records);
  }

  /* ---------- loading into the database ---------- */

  /** A record that has both values and a rate. */
  predicate HasMoney(r: Record) {
    r.valueUsd.Some? && r.valueInr.Some? && r.fxRate.Some?
  }

  /** The number of leading records the loader writes before it stops. */
  function LoadedPrefix(records: seq<Record>): (n: nat)
    ensures n <= |records|
    ensures forall i :: 0 <= i < n ==> HasMoney(records[i])
    ensures n < |records| ==> !HasMoney(records[n])
  {
    if records == [] || !HasMoney(records[0]) then 0 else 1 + LoadedPrefix(records[1..])
  }

  function IncompleteMessage(r: Record): string {
    "Incomplete monetary data for " + r.hsCode + " " + FormatInt(r.year, 0) + "-" + FormatInt(r.month, 2)
  }

  /** The product a record upserts (no capex bounds). */
  function InputOf(r: Record): ProductInput {
    ProductInput(r.hsCode, r.title, r.description, r.sectors, None, None)
  }

  /** The monthly row a record inserts. */
  function RowOf(r: Record): MonthlyRow {
    MonthlyRow(r.hsCode, r.year, r.month, r.valueUsd, r.valueInr, r.fxRate, r.qty, r.partner)
  }

  function Inputs(records: seq<Record>): (r: seq<ProductInput>)
    ensures |r| == |records|
  {
    if records == [] then [] else Inputs(records[..|records| - 1]) + [InputOf(records[|records| - 1])]
  }

  function MonthlyRows(records: seq<Record>): (r: seq<MonthlyRow>)
    ensures |r| == |records|
  {
    if records == [] then [] else MonthlyRows(records[..|records| - 1]) + [RowOf(records[|records| - 1])]
  }

  /**
   * `load`: record by record, the first record lacking a value or the rate raises;
   * a code not seen before is upserted, and every record is inserted. The result is
   * the number of distinct codes and of records. The tables hold the writes made
   * before the raise (the caller's transaction decides whether they stay).
   */
  method Load(db: Database, records: seq<Record>) returns (r: Result<(nat, nat)>)
    modifies db
    ensures var done := records[..LoadedPrefix(records)];
      && db.products == UpsertFirsts(old(db.products), Inputs(done))
      && db.monthly == InsertAllIn(old(db.monthly), MonthlyRows(done))
      && db.nullPartner == old(db.nullPartner) + NullPartnerRows(MonthlyRows(done))
    ensures db.baselines == old(db.baselines) && db.progress == old(db.progress)
    ensures r.Ok? <==> LoadedPrefix(records) == |records|
    ensures r.Ok? ==> r.value == (|CodesOf(Inputs(records))|, |records|)
    ensures r.Err? ==> r.error == IncompleteMessage(records[LoadedPrefix(records)])
  {
    var n, seen := WriteLoaded(db, records);
    if n < |records| {
      return Err(IncompleteMessage(records[n]));
    }
    assert records[..n] == records;
    return Ok((|seen|, n));
  }

  /** The load loop up to the first record lacking money: the number of records
      written and the codes seen. */
  method WriteLoaded(db: Database, records: seq<Record>) returns (n: nat, seen: set<string>)
    modifies db
    ensures n == LoadedPrefix(records) && seen == CodesOf(Inputs(records[..n]))
    ensures db.products == UpsertFirsts(old(db.products), Inputs(records[..n]))
    ensures db.monthly == InsertAllIn(old(db.monthly), MonthlyRows(records[..n]))
    ensures db.nullPartner == old(db.nullPartner) + NullPartnerRows(MonthlyRows(records[..n]))
    ensures db.baselines == old(db.baselines) && db.progress == old(db.progress)
  {
    ghost var products0, monthly0, null0 := db.products, db.monthly, db.nullPartner;
    ghost var inputs: seq<ProductInput> := [];
    ghost var rows: seq<MonthlyRow> := [];
    seen := {};
    n := 0;
    while n < |records| && HasMoney(records[n])
      invariant n <= LoadedPrefix(records)
      invariant inputs == Inputs(records[..n]) && rows == MonthlyRows(records[..n])
      invariant seen == CodesOf(inputs)
      invariant db.products == UpsertFirsts(products0, inputs)
      invariant db.monthly == InsertAllIn(monthly0, rows)
      invariant db.nullPartner == null0 + NullPartnerRows(rows)
      invariant db.baselines == old(db.baselines) && db.progress == old(db.progress)
    {
      var record := records[n];
      RecordsStep(records, n);
      seen := LoadRecord(db, record, seen, products0, monthly0, null0, inputs, rows);
      inputs := inputs + [InputOf(record)];
      rows := rows + [RowOf(record)];
      n := n + 1;
    }
  }

  /** One iteration of the load loop, stated on the records written so far. */
  method LoadRecord(db: Database, record: Record, seen: set<string>, ghost products0: map<string, Product>,
                    ghost monthly0: map<MonthlyKey, Measures>, ghost null0: seq<MonthlyRow>,
                    ghost inputs: seq<ProductInput>, ghost rows: seq<MonthlyRow>) returns (seen': set<string>)
    requires seen == CodesOf(inputs)
    requires db.products == UpsertFirsts(products0, inputs)
    requires db.monthly == InsertAllIn(monthly0, rows) && db.nullPartner == null0 + NullPartnerRows(rows)
    modifies db
    ensures seen' == CodesOf(inputs + [InputOf(record)])
    ensures db.products == UpsertFirsts(products0, inputs + [InputOf(record)])
    ensures db.monthly == InsertAllIn(monthly0, rows + [RowOf(record)])
    ensures db.nullPartner == null0 + NullPartnerRows(rows + [RowOf(record)])
    ensures db.baselines == old(db.baselines) && db.progress == old(db.progress)
  {
    LoadStep(products0, monthly0, null0, inputs, rows, InputOf(record), RowOf(record));
    WriteRecord(db, record, record.hsCode !in seen);
    seen' := seen + {record.hsCode};
  }

  /** One record of the load loop: the product upsert when its code is new, then the monthly insert. */
  method WriteRecord(db: Database, record: Record, isNew: bool)
    modifies db
    ensures db.products == if isNew then UpsertProductIn(old(db.products), InputOf(record)) else old(db.products)
    ensures db.monthly == InsertMonthlyIn(old(db.monthly), RowOf(record))
    ensures db.nullPartner == InsertNullPartnerIn(old(db.nullPartner), RowOf(record))
    ensures db.baselines == old(db.baselines) && db.progress == old(db.progress)
  {
    if isNew {
      db.UpsertProduct(InputOf(record));
    }
    db.InsertMonthly(RowOf(record));
  }

  /** One more record in the load loop: its product input and monthly row are appended. */
  lemma RecordsStep(records: seq<Record>, i: int)
    requires 0 <= i < |records|
    ensures Inputs(records[..i + 1]) == Inputs(records[..i]) + [InputOf(records[i])]
    ensures MonthlyRows(records[..i + 1]) == MonthlyRows(records[..i]) + [RowOf(records[i])]
  {
    assert records[..i + 1][..i] == records[..i];
  }

  /** The summary `run` returns. */
  datatype Summary = Summary(products: nat, monthlyRows: nat, source: string, file: string)

  /**
   * `run`: a missing source file raises; otherwise the file is parsed and loaded.
   * `source` is the file's content, `None` when it does not exist; `rateOf` is the
   * rate lookup (`RatesFrom` of the rates file).
   */
  method Run(db: Database, path: string, source: Option<CsvFile>, rateOf: RateLookup) returns (r: Result<Summary>)
    modifies db
    ensures source.None? ==> r == Err("DGCI&S source file not found: " + path) && unchanged(db)
    ensures source.Some? && LoadCsv(path, source.value, rateOf).Err? ==>
      r == Err(LoadCsv(path, source.value, rateOf).error) && unchanged(db)
    ensures r.Ok? ==> source.Some? && LoadCsv(path, source.value, rateOf).Ok?
    ensures source.Some? && LoadCsv(path, source.value, rateOf).Ok? ==>
      var records := LoadCsv(path, source.value, rateOf).value;
      var done := records[..LoadedPrefix(records)];
      && (r.Ok? <==> LoadedPrefix(records) == |records|)
      && (r.Ok? ==> r.value == Summary(|CodesOf(Inputs(records))|, |records|, "dgcis", path))
      && (r.Err? ==> r.error == IncompleteMessage(records[LoadedPrefix(records)]))
      && db.products == UpsertFirsts(old(db.products), Inputs(done))
      && db.monthly == InsertAllIn(old(db.monthly), MonthlyRows(done))
      && db.nullPartner == old(db.nullPartner) + NullPartnerRows(MonthlyRows(done))
    ensures db.baselines == old(db.baselines) && db.progress == old(db.progress)
  {
    if source.None? {
      return Err("DGCI&S source file not found: " + path);
    }
    var records := LoadCsvFrom(path, source.value, rateOf);
    if records.Err? {
      return Err(records.error);
    }
    var counts := Load(db, records.value);
    if counts.Err? {
      return Err(counts.error);
    }
    return Ok(Summary(counts.value.0, counts.value.1, "dgcis", path));
  }
}
