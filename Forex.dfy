/** Monthly USD to INR exchange rates: the rate table built from the rates file,
    the checked lookup, and the cache in front of the table loader. */
module Forex {
  import opened Wrappers
  import opened Strings
  import opened Rows

  /** The table maps `(year, month)` to the number of rupees per dollar. */
  type RateTable = map<(int, int), real>

  /** A rates file. */
  type RateFile = CsvFile

  /** The required columns, in sorted order (the order of the error message). */
  const RequiredColumns: seq<string> := ["month", "usd_to_inr", "year"]

  /** The required columns missing from the header, sorted. */
  function MissingColumns(fieldnames: Option<seq<string>>): (missing: seq<string>)
    ensures forall c :: c in missing <==> c in RequiredColumns && (fieldnames.None? || c !in fieldnames.value)
  {
    var names := fieldnames.GetOr([]);
    (if "month" in names then [] else ["month"])
    + (if "usd_to_inr" in names then [] else ["usd_to_inr"])
    + (if "year" in names then [] else ["year"])
  }

  /** One row's key and rate: `int(year)`, `int(month)` and `float(usd_to_inr)`;
      `None` where any of them raises. */
  function ParseRateRow(row: CsvRow): Option<((int, int), real)> {
    var y := Get(row, "year");
    var m := Get(row, "month");
    var r := Get(row, "usd_to_inr");
    if y.None? || m.None? || r.None? then None
    else
      match (ParseInt(y.value), ParseInt(m.value), ParseFloat(r.value))
      case (Some(year), Some(month), Some(rate)) => Some(((year, month), rate))
      case _ => None
  }

  const InvalidRow: string := "Invalid FX rate row"

  /** A parsed row: its month key and its rate. */
  type Entry = ((int, int), real)

  /** Every row parsed, in file order. */
  function ParseRows(rows: seq<CsvRow>): (r: seq<Option<Entry>>)
    ensures |r| == |rows| && forall i :: 0 <= i < |rows| ==> r[i] == ParseRateRow(rows[i])
  {
    seq(|rows|, i requires 0 <= i < |rows| => ParseRateRow(rows[i]))
  }

  /** The table filled entry by entry, a later entry replacing an earlier one of the
      same month; the first row that did not parse is an error. */
  function Fill(entries: seq<Option<Entry>>): Result<RateTable> {
    if entries == [] then Ok(map[])
    else
      match Fill(entries[..|entries| - 1])
      case Err(e) => Err(e)
      case Ok(t) =>
        match entries[|entries| - 1]
        case None => Err(InvalidRow)
        case Some(entry) => Ok(t[entry.0 := entry.1])
  }

  /** `_load_rates` over an already-read file. */
  function LoadRates(file: RateFile): Result<RateTable> {
    var missing := MissingColumns(file.fieldnames);
    if missing != [] then Err("FX rates file missing columns: " + Join(missing, ", "))
    else
      match Fill(ParseRows(file.rows))
      case Err(e) => Err(e)
      case Ok(t) => if t == map[] then Err("FX rates file is empty") else Ok(t)
  }

  /** The loop of `_load_rates`: header check, then one row at a time. */
  method LoadRatesFrom(file: RateFile) returns (r: Result<RateTable>)
    ensures r == LoadRates(file)
  {
    var missing := MissingColumns(file.fieldnames);
    if missing != [] {
      return Err("FX rates file missing columns: " + Join(missing, ", "));
    }
    var table: RateTable := map[];
    var i := 0;
    while i < |file.rows|
      invariant 0 <= i <= |file.rows|
      invariant Fill(ParseRows(file.rows)[..i]) == Ok(table)
    {
      ghost var entries := ParseRows(file.rows);
      var parsed := ParseRateRow(file.rows[i]);
      FillStep(entries, i, table);
      if parsed.None? {
        FillErrorSticks(entries, i + 1);
        return Err(InvalidRow);
      }
      table := table[parsed.value.0 := parsed.value.1];
      i := i + 1;
    }
    assert ParseRows(file.rows)[..i] == ParseRows(file.rows);
    if table == map[] {
      return Err("FX rates file is empty");
    }
    return Ok(table);
  }

  /** One more entry: the prefix's table gains the entry, or the fill fails at it. */
  lemma FillStep(entries: seq<Option<Entry>>, i: nat, table: RateTable)
    requires i < |entries| && Fill(entries[..i]) == Ok(table)
    ensures Fill(entries[..i + 1]) ==
      if entries[i].None? then Err(InvalidRow) else Ok(table[entries[i].value.0 := entries[i].value.1])
  {
    assert entries[..i + 1][..i] == entries[..i];
  }

  /** Once a prefix of the entries fails, the whole file fails with the same error. */
  lemma {:induction false} FillErrorSticks(entries: seq<Option<Entry>>, n: nat)
    requires n <= |entries| && Fill(entries[..n]).Err?
    ensures Fill(entries) == Fill(entries[..n])
    decreases |entries| - n
  {
    if n < |entries| {
      assert entries[..n + 1][..n] == entries[..n];
      FillErrorSticks(entries, n + 1);
    } else {
      assert entries[..n] == entries;
    }
  }

  /** The month keys of the parsed entries. */
  function EntryKeys(entries: seq<Option<Entry>>): set<(int, int)> {
    set i | 0 <= i < |entries| && entries[i].Some? :: entries[i].value.0
  }

  /** Filling succeeds exactly when every row parsed. */
  lemma {:induction false} FillOk(entries: seq<Option<Entry>>)
    ensures Fill(entries).Ok? <==> forall i :: 0 <= i < |entries| ==> entries[i].Some?
  {
    if entries != [] {
      var front := entries[..|entries| - 1];
      FillOk(front);
      assert forall i :: 0 <= i < |front| ==> front[i] == entries[i];
    }
  }

  /** A filled table has one entry per distinct month of the rows. */
  lemma {:induction false} FillKeys(entries: seq<Option<Entry>>)
    requires Fill(entries).Ok?
    ensures Fill(entries).value.Keys == EntryKeys(entries)
  {
    if entries != [] {
      var front := entries[..|entries| - 1];
      FillKeys(front);
      assert forall i :: 0 <= i < |front| ==> front[i] == entries[i];
      var last := entries[|entries| - 1].value;
      assert EntryKeys(entries) == EntryKeys(front) + {last.0};
    }
  }

  /** Entry `i` is the last one for its month. */
  ghost predicate LastOfMonth(entries: seq<Option<Entry>>, i: int)
    requires 0 <= i < |entries| && entries[i].Some?
  {
    forall j :: i < j < |entries| && entries[j].Some? ==> entries[j].value.0 != entries[i].value.0
  }

  /** In a filled table a month holds the rate of the last row for that month. */
  lemma {:induction false} FillLastWins(entries: seq<Option<Entry>>, i: int)
    requires Fill(entries).Ok? && 0 <= i < |entries|
    ensures entries[i].Some? && entries[i].value.0 in Fill(entries).value
    ensures LastOfMonth(entries, i) ==> Fill(entries).value[entries[i].value.0] == entries[i].value.1
  {
    FillOk(entries);
    FillKeys(entries);
    var front := entries[..|entries| - 1];
    if i < |entries| - 1 {
      assert front[i] == entries[i];
      FillLastWins(front, i);
      if LastOfMonth(entries, i) {
        assert forall j :: i < j < |front| ==> front[j] == entries[j];
        assert LastOfMonth(front, i);
      }
    }
  }

  /**
   * What `_load_rates` promises: an error for a missing required column, for a row
   * that does not parse, and for a file without rows; otherwise the built table, in
   * which a later row for a month replaces an earlier one.
   */
  lemma LoadRatesSpec(file: RateFile)
    ensures LoadRates(file).Ok? <==>
      && MissingColumns(file.fieldnames) == []
      && (forall i :: 0 <= i < |file.rows| ==> ParseRateRow(file.rows[i]).Some?)
      && file.rows != []
    ensures LoadRates(file).Ok? ==> LoadRates(file) == Fill(ParseRows(file.rows))
  {
    var entries := ParseRows(file.rows);
    FillOk(entries);
    if Fill(entries).Ok? && file.rows != [] {
      FillKeys(entries);
      assert entries[0].value.0 in EntryKeys(entries);
    }
  }

  /** A header without `usd_to_inr` is rejected whatever the rows. */
  lemma MissingRateColumn(rows: seq<CsvRow>)
    ensures LoadRates(CsvFile(Some(["year", "month"]), rows)) == Err("FX rates file missing columns: usd_to_inr")
  {
    assert MissingColumns(Some(["year", "month"])) == ["usd_to_inr"];
  }

  /** The rate for a month from a loaded table, or the error for a month without one. */
  function RateIn(table: RateTable, year: int, month: int): Result<real> {
    if (year, month) in table then Ok(table[(year, month)])
    else Err("FX rate missing for " + FormatInt(year, 0) + "-" + FormatInt(month, 2))
  }

  predicate ValidMonth(month: int) {
    1 <= month <= 12
  }

  function InvalidMonth(month: int): string {
    "Invalid month for FX rate: " + FormatInt(month, 0)
  }

  function FileNotFound(path: string): string {
    "FX rates file not found: " + path
  }

  /**
   * `monthly_rate(year, month)` without the cache; `file` is the rates file at
   * `path`, `None` when it does not exist.
   */
  function MonthlyRateOf(path: string, file: Option<RateFile>, year: int, month: int): Result<real> {
    if !ValidMonth(month) then Err(InvalidMonth(month))
    else if file.None? then Err(FileNotFound(path))
    else
      match LoadRates(file.value)
      case Err(e) => Err(e)
      case Ok(t) => RateIn(t, year, month)
  }

  /**
   * What `monthly_rate` promises: a month outside 1..12 fails before the file is
   * looked at; otherwise a loaded table yields the month's rate when it has one and
   * an error when it has none.
   */
  lemma MonthlyRateSpec(path: string, file: Option<RateFile>, year: int, month: int)
    ensures !ValidMonth(month) ==> MonthlyRateOf(path, file, year, month) == Err(InvalidMonth(month))
    ensures ValidMonth(month) && file.Some? && LoadRates(file.value).Ok? ==>
      var t := LoadRates(file.value).value;
      && ((year, month) in t ==> MonthlyRateOf(path, file, year, month) == Ok(t[(year, month)]))
      && ((year, month) !in t ==> MonthlyRateOf(path, file, year, month).Err?)
    ensures MonthlyRateOf(path, file, year, month).Ok? ==>
      file.Some? && LoadRates(file.value).Ok? && (year, month) in LoadRates(file.value).value
  {
  }

  /**
   * The rate service: the files on disk, the resolved `FX_RATES_FILE` path, and the
   * `lru_cache` of `_load_rates` (keyed by path; only successful loads are cached).
   */
  class RateService {
    var files: map<string, RateFile>
    var path: string
    var cache: map<string, RateTable>

    /** Every cached table is what loading the file on disk now gives. */
    ghost predicate Fresh()
      reads this
    {
      forall p :: p in cache ==> p in files && LoadRates(files[p]) == Ok(cache[p])
    }

    /** The rates file at the configured path, if it exists. */
    function CurrentFile(): Option<RateFile>
      reads this
    {
      if path in files then Some(files[path]) else None
    }

    /** The table a lookup works on: the existence check comes first, then the cache, then a load. */
    function Table(): Result<RateTable>
      reads this
    {
      if path !in files then Err(FileNotFound(path))
      else if path in cache then Ok(cache[path])
      else LoadRates(files[path])
    }

    constructor(files: map<string, RateFile>, path: string)
      ensures this.files == files && this.path == path && cache == map[]
      ensures Fresh()
    {
      this.files := files;
      this.path := path;
      cache := map[];
    }

    /**
     * `monthly_rate(year, month)`: rejects a bad month first, then reads the table
     * through the cache and looks the month up. A successful load is remembered.
     * The cache is transparent: while it is fresh the result is the uncached one.
     */
    method MonthlyRate(year: int, month: int) returns (r: Result<real>)
      modifies this
      ensures files == old(files) && path == old(path)
      ensures !ValidMonth(month) ==> r == Err(InvalidMonth(month)) && cache == old(cache)
      ensures ValidMonth(month) ==>
        match old(Table())
        case Err(e) => r == Err(e) && cache == old(cache)
        case Ok(t) => r == RateIn(t, year, month) && cache == old(cache)[path := t]
      ensures old(Fresh()) ==> Fresh() && r == MonthlyRateOf(path, CurrentFile(), year, month)
    {
      if !ValidMonth(month) {
        return Err(InvalidMonth(month));
      }
      if path !in files {
        return Err(FileNotFound(path));
      }
      var table: RateTable;
      if path in cache {
        table := cache[path];
      } else {
        var loaded := LoadRatesFrom(files[path]);
        if loaded.Err? {
          return Err(loaded.error);
        }
        table := loaded.value;
      }
      cache := cache[path := table];
      r := RateIn(table, year, month);
    }

    /** `reset_cache()`: forgets every cached table, which makes the cache fresh again. */
    method ResetCache()
      modifies this
      ensures files == old(files) && path == old(path) && cache == map[]
      ensures Fresh()
    {
      cache := map[];
    }

    /**
     * Not an operation of the source: the rates file at `p` is created or rewritten
     * on disk by someone else, and `lru_cache` does not notice.
     */
    method ReplaceFile(p: string, file: RateFile)
      modifies this
      ensures files == old(files)[p := file] && path == old(path) && cache == old(cache)
    {
      files := files[p := file];
    }
  }

  /** A lookup after `reset_cache` returns what the uncached lookup returns, even after
      the file changed on disk behind a filled cache. */
  method LookupAfterReset(s: RateService, year: int, month: int) returns (r: Result<real>)
    modifies s
    ensures r == MonthlyRateOf(old(s.path), old(s.CurrentFile()), year, month)
  {
    s.ResetCache();
    r := s.MonthlyRate(year, month);
  }
}
