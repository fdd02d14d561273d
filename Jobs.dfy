/**
 * The recompute jobs: the 12-month baseline window of every product and the
 * progress metrics measured against it.
 */
module Jobs {
  import opened Wrappers
  import opened Strings
  import opened Util
  import opened Db

  /** A row of the monthly query: `(year, month, SUM(value_usd))`, in `year, month` order. */
  datatype MonthTotal = MonthTotal(year: int, month: int, total: Option<real>)

  /* ---------- months ---------- */

  /** `_month_key`: months counted from January of year 0. */
  function MonthKey(year: int, month: int): int {
    year * 12 + (month - 1)
  }

  /** On months 1..12 the key is one-to-one, and the month after December is January of the next year. */
  lemma MonthKeyOrder(y1: int, m1: int, y2: int, m2: int)
    requires 1 <= m1 <= 12 && 1 <= m2 <= 12
    ensures MonthKey(y1, m1) == MonthKey(y2, m2) <==> y1 == y2 && m1 == m2
    ensures MonthKey(y2, m2) == MonthKey(y1, m1) + 1 <==>
      (m1 < 12 && y2 == y1 && m2 == m1 + 1) || (m1 == 12 && y2 == y1 + 1 && m2 == 1)
  {
  }

  function KeyAt(months: seq<(int, int)>, i: int): int
    requires 0 <= i < |months|
  {
    MonthKey(months[i].0, months[i].1)
  }

  /** What `_ensure_contiguous` decides: each month's key is the first key plus its position. */
  predicate Contiguous(months: seq<(int, int)>) {
    |months| < 2 || forall i :: 0 <= i < |months| ==> KeyAt(months, i) == KeyAt(months, 0) + i
  }

  /** `_ensure_contiguous`: the scan that stops at the first month out of step. */
  method EnsureContiguous(months: seq<(int, int)>) returns (ok: bool)
    ensures ok == Contiguous(months)
  {
    if |months| < 2 {
      return true;
    }
    var startKey := MonthKey(months[0].0, months[0].1);
    var idx := 0;
    while idx < |months|
      invariant 0 <= idx <= |months|
      invariant forall i :: 0 <= i < idx ==> KeyAt(months, i) == startKey + i
    {
      if MonthKey(months[idx].0, months[idx].1) != startKey + idx {
        assert KeyAt(months, idx) != KeyAt(months, 0) + idx;
        return false;
      }
      idx := idx + 1;
    }
    return true;
  }

  /** Contiguity read step by step: every month is the one after its predecessor. */
  lemma {:induction false} ContiguousSteps(months: seq<(int, int)>)
    ensures Contiguous(months) <==> forall i :: 0 <= i < |months| - 1 ==> KeyAt(months, i + 1) == KeyAt(months, i) + 1
  {
    if forall i :: 0 <= i < |months| - 1 ==> KeyAt(months, i + 1) == KeyAt(months, i) + 1 {
      forall i | 0 <= i < |months|
        ensures KeyAt(months, i) == KeyAt(months, 0) + i
      {
        StepsReach(months, i);
      }
    }
  }

  lemma {:induction false} StepsReach(months: seq<(int, int)>, i: int)
    requires 0 <= i < |months|
    requires forall j :: 0 <= j < |months| - 1 ==> KeyAt(months, j + 1) == KeyAt(months, j) + 1
    ensures KeyAt(months, i) == KeyAt(months, 0) + i
  {
    if i > 0 {
      StepsReach(months, i - 1);
    }
  }

  /* ---------- baseline periods ---------- */

  /** `f"{y:04d}-{m:02d}_to_{y:04d}-{m:02d}"` for a window's first and last months. */
  function FormatPeriod(start: (int, int), end: (int, int)): string {
    FormatYearMonth(start.0, start.1) + "_to_" + FormatYearMonth(end.0, end.1)
  }

  const InvalidPeriod: string := "invalid baseline period"

  /** `map(int, s.split("-"))` unpacked into a year and a month. */
  function ParseYearMonth(s: string): Result<(int, int)> {
    var parts := Split(s, "-");
    if |parts| != 2 then Err(InvalidPeriod)
    else
      match (ParseInt(parts[0]), ParseInt(parts[1]))
      case (Some(y), Some(m)) => Ok((y, m))
      case _ => Err(InvalidPeriod)
  }

  /** `_parse_period`: no bounds for a missing or empty period or one without `_to_`;
      an error where the two halves do not unpack into integers. */
  function ParsePeriod(period: Option<string>): Result<Option<((int, int), (int, int))>> {
    if period.None? || period.value == "" || !Contains(period.value, "_to_") then Ok(None)
    else
      var halves := Split(period.value, "_to_");
      if |halves| != 2 then Err(InvalidPeriod)
      else
        match (ParseYearMonth(halves[0]), ParseYearMonth(halves[1]))
        case (Ok(s), Ok(e)) => Ok(Some((s, e)))
        case _ => Err(InvalidPeriod)
  }

  /** A digit string holds neither `-` nor `_`. */
  lemma DigitsLackSeparators(s: string)
    requires AllDigits(s)
    ensures '-' !in s && '_' !in s
  {
    assert forall i :: 0 <= i < |s| ==> IsDigit(s[i]);
  }

  /** `f"{y:04d}-{m:02d}"`. */
  function FormatYearMonth(y: int, m: int): string {
    FormatInt(y, 4) + "-" + FormatInt(m, 2)
  }

  /** Two integers joined by `-` unpack into those integers. */
  lemma ParseYearMonthParts(a: string, b: string)
    requires '-' !in a && '-' !in b && ParseInt(a).Some? && ParseInt(b).Some?
    ensures ParseYearMonth(a + "-" + b) == Ok((ParseInt(a).value, ParseInt(b).value))
  {
    SplitPair(a, "-", b);
  }

  /** A formatted year and month splits back into its two numbers. */
  lemma YearMonthRoundTrip(y: int, m: int)
    requires y >= 0 && m >= 0
    ensures ParseYearMonth(FormatYearMonth(y, m)) == Ok((y, m))
    ensures '_' !in FormatYearMonth(y, m)
  {
    var a := FormatInt(y, 4);
    var b := FormatInt(m, 2);
    FormatIntParses(y, 4);
    FormatIntParses(m, 2);
    DigitsLackSeparators(a);
    DigitsLackSeparators(b);
    ParseYearMonthParts(a, b);
  }

  /**
   * The period written by the baseline job parses back to the window's first and
   * last months (for the non-negative years and months a table holds).
   */
  lemma PeriodRoundTrip(start: (int, int), end: (int, int))
    requires start.0 >= 0 && start.1 >= 0 && end.0 >= 0 && end.1 >= 0
    ensures ParsePeriod(Some(FormatPeriod(start, end))) == Ok(Some((start, end)))
  {
    var a := FormatYearMonth(start.0, start.1);
    var b := FormatYearMonth(end.0, end.1);
    YearMonthRoundTrip(start.0, start.1);
    YearMonthRoundTrip(end.0, end.1);
    var p := FormatPeriod(start, end);
    assert p == a + "_to_" + b;
    assert MatchAt(p, "_to_", |a|) by {
      assert p[|a|..|a| + 4] == "_to_";
    }
    SplitPair(a, "_to_", b);
  }

  const InsufficientData: string := "insufficient_data"

  /** A period without bounds parses to none, the `insufficient_data` marker included. */
  lemma PeriodWithoutBounds(period: Option<string>)
    ensures period.None? ==> ParsePeriod(period) == Ok(None)
    ensures period == Some("") ==> ParsePeriod(period) == Ok(None)
    ensures period == Some(InsufficientData) ==> ParsePeriod(period) == Ok(None)
  {
    var s := InsufficientData;
    forall i | 0 <= i <= |s| ensures !MatchAt(s, "_to_", i) {
      if i + 4 <= |s| {
        assert s[i] != '_' || s[i + 1] != 't';
        assert s[i..i + 4][0] == s[i] && s[i..i + 4][1] == s[i + 1];
      }
    }
  }

  /* ---------- the baseline job ---------- */

  /** The months of a list of rows. */
  function MonthsOf(rows: seq<MonthTotal>): (r: seq<(int, int)>)
    ensures |r| == |rows| && forall i :: 0 <= i < |rows| ==> r[i] == (rows[i].year, rows[i].month)
  {
    seq(|rows|, i requires 0 <= i < |rows| => (rows[i].year, rows[i].month))
  }

  /** `sum(float(row["total"] or 0) for row in window)`. */
  function WindowTotal(rows: seq<MonthTotal>): real {
    if rows == [] then 0.0 else WindowTotal(rows[..|rows| - 1]) + OrZero(rows[|rows| - 1].total)
  }

  /** The 12 rows starting at `idx` form a run of consecutive months. */
  predicate ContiguousAt(monthly: seq<MonthTotal>, idx: int)
    requires 0 <= idx && idx + 12 <= |monthly|
  {
    Contiguous(MonthsOf(monthly[idx..idx + 12]))
  }

  /** The first index at or after `from` where a contiguous 12-row window starts. */
  function FirstWindow(monthly: seq<MonthTotal>, from: nat): (r: Option<nat>)
    ensures r.Some? ==> from <= r.value && r.value + 12 <= |monthly| && ContiguousAt(monthly, r.value)
    ensures r.Some? ==> forall j :: from <= j < r.value ==> !ContiguousAt(monthly, j)
    ensures r.None? ==> forall j :: from <= j && j + 12 <= |monthly| ==> !ContiguousAt(monthly, j)
    decreases |monthly| - from
  {
    if from + 12 > |monthly| then None
    else if ContiguousAt(monthly, from) then Some(from)
    else FirstWindow(monthly, from + 1)
  }

  /** A job result for one product (`BaselineResult`). */
  datatype BaselineResult = BaselineResult(
    hsCode: string,
    value: Option<real>,
    period: Option<string>,
    start: Option<(int, int)>,
    end: Option<(int, int)>)

  function Insufficient(code: string): BaselineResult {
    BaselineResult(code, None, Some(InsufficientData), None, None)
  }

  /** The result the baseline job computes for one product from its monthly rows. */
  function BaselineOf(code: string, monthly: seq<MonthTotal>): BaselineResult {
    if |monthly| < 12 then Insufficient(code)
    else
      match FirstWindow(monthly, 0)
      case None => Insufficient(code)
      case Some(idx) =>
        var w := monthly[idx..idx + 12];
        var start := (w[0].year, w[0].month);
        var end := (w[11].year, w[11].month);
        BaselineResult(code, Some(WindowTotal(w)), Some(FormatPeriod(start, end)), Some(start), Some(end))
  }

  /** The window scan of `recompute_baseline` for one product, leaving at the first contiguous window. */
  method ComputeBaseline(code: string, monthly: seq<MonthTotal>) returns (r: BaselineResult)
    ensures r == BaselineOf(code, monthly)
  {
    if |monthly| < 12 {
      return Insufficient(code);
    }
    var found: Option<nat> := None;
    var idx := 0;
    while idx < |monthly| - 11
      invariant 0 <= idx <= |monthly| - 11
      invariant found.None? ==> FirstWindow(monthly, 0) == FirstWindow(monthly, idx)
      invariant found.Some? ==> FirstWindow(monthly, 0) == found
      decreases |monthly| - 11 - idx, if found.None? then 1 else 0
    {
      var window := monthly[idx..idx + 12];
      var ok := EnsureContiguous(MonthsOf(window));
      if ok {
        found := Some(idx);
        break;
      }
      idx := idx + 1;
    }
    if found.None? {
      return Insufficient(code);
    }
    var w := monthly[found.value..found.value + 12];
    var start := (w[0].year, w[0].month);
    var end := (w[11].year, w[11].month);
    r := BaselineResult(code, Some(WindowTotal(w)), Some(FormatPeriod(start, end)), Some(start), Some(end));
  }

  /**
   * What the baseline job promises for one product: fewer than 12 rows, or no run of
   * 12 consecutive months, gives no value and the `insufficient_data` period;
   * otherwise the window is the earliest run of 12 consecutive months, the value is
   * its total with NULL totals counted as zero, and the period names its first and
   * last months.
   */
  lemma BaselineSpec(code: string, monthly: seq<MonthTotal>)
    ensures var r := BaselineOf(code, monthly);
      r.hsCode == code
      && (r.value.None? <==> |monthly| < 12 || forall j :: 0 <= j && j + 12 <= |monthly| ==> !ContiguousAt(monthly, j))
      && (r.value.None? ==> r == Insufficient(code))
      && (r.value.Some? ==> exists idx :: (
            && 0 <= idx && idx + 12 <= |monthly|
            && ContiguousAt(monthly, idx)
            && (forall j :: 0 <= j < idx ==> !ContiguousAt(monthly, j))
            && r.value == Some(WindowTotal(monthly[idx..idx + 12]))
            && r.start == Some((monthly[idx].year, monthly[idx].month))
            && r.end == Some((monthly[idx + 11].year, monthly[idx + 11].month))
            && r.period == Some(FormatPeriod(r.start.value, r.end.value))))
  {
    var r := BaselineOf(code, monthly);
    if |monthly| >= 12 && FirstWindow(monthly, 0).Some? {
      var idx := FirstWindow(monthly, 0).value;
      assert monthly[idx..idx + 12][0] == monthly[idx];
      assert monthly[idx..idx + 12][11] == monthly[idx + 11];
    }
  }

  /** The baseline window lies on 12 consecutive calendar months when its months are valid. */
  lemma BaselineWindowMonths(code: string, monthly: seq<MonthTotal>)
    requires forall i :: 0 <= i < |monthly| ==> 1 <= monthly[i].month <= 12
    requires BaselineOf(code, monthly).value.Some?
    ensures var r := BaselineOf(code, monthly);
      MonthKey(r.end.value.0, r.end.value.1) == MonthKey(r.start.value.0, r.start.value.1) + 11
  {
    var idx := FirstWindow(monthly, 0).value;
    var ms := MonthsOf(monthly[idx..idx + 12]);
    assert KeyAt(ms, 11) == KeyAt(ms, 0) + 11;
    assert monthly[idx..idx + 12][0] == monthly[idx];
    assert monthly[idx..idx + 12][11] == monthly[idx + 11];
  }

  /** The results for every product, in query order. */
  function BaselinesOf(codes: seq<string>, monthlyOf: string -> seq<MonthTotal>): (r: seq<BaselineResult>)
    ensures |r| == |codes| && forall i :: 0 <= i < |codes| ==> r[i] == BaselineOf(codes[i], monthlyOf(codes[i]))
  {
    seq(|codes|, i requires 0 <= i < |codes| => BaselineOf(codes[i], monthlyOf(codes[i])))
  }

  /** The `baseline_imports` table after every result is upserted in order. */
  function StoreBaselines(table: map<string, BaselineRow>, results: seq<BaselineResult>): map<string, BaselineRow> {
    if results == [] then table
    else
      var last := results[|results| - 1];
      StoreBaselines(table, results[..|results| - 1])[last.hsCode := BaselineRow(last.value, last.period)]
  }

  /** `sum(1 for item in results if item.baseline_value is not None)`. */
  function CountWithBaseline(results: seq<BaselineResult>): (n: nat)
    ensures n <= |results|
  {
    if results == [] then 0
    else CountWithBaseline(results[..|results| - 1]) + (if results[|results| - 1].value.Some? then 1 else 0)
  }

  /**
   * Storing the results replaces, for each product, its whole row by its own job
   * result, and leaves every other product's row alone.
   */
  lemma {:induction false} StoreBaselinesSpec(table: map<string, BaselineRow>, results: seq<BaselineResult>, c: string)
    ensures c in StoreBaselines(table, results) <==> c in table || exists i :: 0 <= i < |results| && results[i].hsCode == c
    ensures (forall i :: 0 <= i < |results| ==> results[i].hsCode != c) && c in table ==>
      StoreBaselines(table, results)[c] == table[c]
    ensures forall i :: (0 <= i < |results| && results[i].hsCode == c &&
      (forall j :: i < j < |results| ==> results[j].hsCode != c)) ==>
        StoreBaselines(table, results)[c] == BaselineRow(results[i].value, results[i].period)
  {
    if results != [] {
      var front := results[..|results| - 1];
      StoreBaselinesSpec(table, front, c);
      assert forall i :: 0 <= i < |front| ==> front[i] == results[i];
      if exists i :: 0 <= i < |front| && front[i].hsCode == c {
        var i :| 0 <= i < |front| && front[i].hsCode == c;
        assert results[i].hsCode == c;
      }
    }
  }

  /**
   * `recompute_baseline`: one result per product, then one upsert per result; the
   * counts of processed products and of those with a baseline. `codes` is the
   * product query's result, every product's code once, and `monthlyOf` the
   * monthly query.
   */
  method RecomputeBaseline(db: Database, codes: seq<string>, monthlyOf: string -> seq<MonthTotal>)
    returns (processed: nat, withBaseline: nat)
    requires ListsProducts(codes, db.products)
    modifies db
    ensures processed == |codes| == |db.products| && withBaseline <= processed
    ensures withBaseline == CountWithBaseline(BaselinesOf(codes, monthlyOf))
    ensures db.baselines == StoreBaselines(old(db.baselines), BaselinesOf(codes, monthlyOf))
    ensures db.products == old(db.products) && db.monthly == old(db.monthly)
    ensures db.nullPartner == old(db.nullPartner) && db.progress == old(db.progress)
  {
    var results := BaselineLoop(codes, monthlyOf);
    StoreBaselineLoop(db, results);
    ListsProductsCount(codes, db.products);
    processed := |results|;
    withBaseline := CountWithBaseline(results);
  }

  /** The first loop of `recompute_baseline`: one result per code, in order. */
  method BaselineLoop(codes: seq<string>, monthlyOf: string -> seq<MonthTotal>) returns (results: seq<BaselineResult>)
    ensures results == BaselinesOf(codes, monthlyOf)
  {
    results := [];
    var i := 0;
    while i < |codes|
      invariant 0 <= i <= |codes|
      invariant results == BaselinesOf(codes[..i], monthlyOf)
    {
      var r := ComputeBaseline(codes[i], monthlyOf(codes[i]));
      results := results + [r];
      i := i + 1;
    }
    assert codes[..i] == codes;
  }

  /** The second loop of `recompute_baseline`: one upsert per result. */
  method StoreBaselineLoop(db: Database, results: seq<BaselineResult>)
    modifies db
    ensures db.baselines == StoreBaselines(old(db.baselines), results)
    ensures db.products == old(db.products) && db.monthly == old(db.monthly)
    ensures db.nullPartner == old(db.nullPartner) && db.progress == old(db.progress)
  {
    var k := 0;
    while k < |results|
      invariant 0 <= k <= |results|
      invariant db.baselines == StoreBaselines(old(db.baselines), results[..k])
      invariant db.products == old(db.products) && db.monthly == old(db.monthly)
      invariant db.nullPartner == old(db.nullPartner) && db.progress == old(db.progress)
    {
      assert results[..k + 1][..k] == results[..k];
      db.UpsertBaseline(results[k].hsCode, results[k].value, results[k].period);
      k := k + 1;
    }
    assert results[..k] == results;
  }

  /* ---------- the progress job ---------- */

  /** The metrics of one product (`metrics[code]`). */
  datatype Metrics = Metrics(
    current: Option<real>,
    reductionAbs: Option<real>,
    reductionPct: Option<real>,
    hhiCurrent: Option<real>,
    hhiBaseline: Option<real>,
    concentrationShift: Option<real>,
    opportunityScore: Option<real>)

  /** The metrics of a product without a usable current window: all NULL. */
  const NoMetrics: Metrics := Metrics(None, None, None, None, None, None, None)

  /** The partner query of `partner_shares`: a product's grouped totals between two months. */
  type SharesQuery = (string, (int, int), (int, int)) -> seq<PartnerTotal>

  function AsShares(xs: seq<real>): (r: seq<Option<real>>)
    ensures |r| == |xs|
  {
    if xs == [] then [] else AsShares(xs[..|xs| - 1]) + [Some(xs[|xs| - 1])]
  }

  /** `util.hhi_from_shares(list(db.partner_shares(...).values()))`. */
  function HhiOf(totals: seq<PartnerTotal>): Option<real> {
    HhiFromShares(AsShares(ShareValues(PartnerShares(totals))))
  }

  /** `baseline - current` when the baseline is known. */
  function Reduction(baseline: Option<real>, current: real): Option<real> {
    if baseline.Some? then Some(baseline.value - current) else None
  }

  /** `reduction_abs / baseline`, unless the baseline is unknown or zero. */
  function ReductionPct(baseline: Option<real>, reductionAbs: Option<real>): Option<real> {
    if baseline.None? || baseline.value == 0.0 || reductionAbs.None? then None
    else Some(reductionAbs.value / baseline.value)
  }

  /** `(hhi_baseline or 0) - (hhi_current or 0)` when either index is known. */
  function ConcentrationShift(hhiBaseline: Option<real>, hhiCurrent: Option<real>): Option<real> {
    if hhiBaseline.Some? || hhiCurrent.Some? then Some(OrZero(hhiBaseline) - OrZero(hhiCurrent)) else None
  }

  /** The current window: the last 12 rows. */
  function CurrentWindow(monthly: seq<MonthTotal>): seq<MonthTotal>
    requires |monthly| >= 12
  {
    monthly[|monthly| - 12..]
  }

  /** The first loop of `recompute_progress` for one product; the opportunity score is
      filled in later. A malformed stored baseline period is an error. */
  function FirstPhase(code: string, monthly: seq<MonthTotal>, baseline: Option<BaselineRow>, shares: SharesQuery): Result<Metrics> {
    if |monthly| < 12 then Ok(NoMetrics)
    else
      var months := MonthsOf(CurrentWindow(monthly));
      if !Contiguous(months) then Ok(NoMetrics)
      else
        var current := WindowTotal(CurrentWindow(monthly));
        var baselineValue := if baseline.Some? then baseline.value.value else None;
        var reductionAbs := Reduction(baselineValue, current);
        var reductionPct := ReductionPct(baselineValue, reductionAbs);
        var bounds := ParsePeriod(if baseline.Some? then baseline.value.period else None);
        match bounds
        case Err(e) => Err(e)
        case Ok(b) =>
          var hhiCurrent := HhiOf(shares(code, months[0], months[11]));
          var hhiBaseline := if b.Some? then HhiOf(shares(code, b.value.0, b.value.1)) else None;
          Ok(Metrics(Some(current), reductionAbs, reductionPct, hhiCurrent, hhiBaseline,
                     ConcentrationShift(hhiBaseline, hhiCurrent), None))
  }

  /** The stored baseline row of a product, if any (`baseline_map.get(code)`). */
  function BaselineFor(baselines: map<string, BaselineRow>, code: string): Option<BaselineRow> {
    if code in baselines then Some(baselines[code]) else None
  }

  /** The first loop for every product, stopping at the first error. */
  function FirstPhaseAll(codes: seq<string>, monthlyOf: string -> seq<MonthTotal>,
                         baselines: map<string, BaselineRow>, shares: SharesQuery): (r: Result<seq<Metrics>>)
    ensures r.Ok? ==> |r.value| == |codes|
  {
    if codes == [] then Ok([])
    else
      match FirstPhaseAll(codes[..|codes| - 1], monthlyOf, baselines, shares)
      case Err(e) => Err(e)
      case Ok(ms) =>
        var code := codes[|codes| - 1];
        match FirstPhase(code, monthlyOf(code), BaselineFor(baselines, code), shares)
        case Err(e) => Err(e)
        case Ok(m) => Ok(ms + [m])
  }

  /** `current_totals`: the products with a current total, in order. */
  function CurrentTotals(codes: seq<string>, ms: seq<Metrics>): seq<(string, Option<real>)>
    requires |codes| == |ms|
  {
    if codes == [] then []
    else
      CurrentTotals(codes[..|codes| - 1], ms[..|ms| - 1])
      + (if ms[|ms| - 1].current.Some? then [(codes[|codes| - 1], ms[|ms| - 1].current)] else [])
  }

  /** The sector list of a product (`sectors_map.get(code)`). */
  function SectorsOf(products: map<string, Product>, code: string): Option<seq<string>> {
    if code in products then Some(products[code].sectors) else None
  }

  /** The opportunity score of the second loop: `None` without a current total, else
      `norm * (1 - (hhi_current or 0)) * tech_feasibility`. */
  function Opportunity(m: Metrics, normValue: real, sectors: Option<seq<string>>): Option<real> {
    if m.current.None? then None
    else Some(normValue * (1.0 - OrZero(m.hhiCurrent)) * TechFeasibility(sectors) * 1.0)
  }

  function NormOf(norm: map<string, real>, code: string): real {
    if code in norm then norm[code] else 0.0
  }

  /** A product's metrics with its opportunity score filled in. */
  function ScoredAt(codes: seq<string>, ms: seq<Metrics>, norm: map<string, real>, products: map<string, Product>, i: int): Metrics
    requires 0 <= i < |codes| == |ms|
  {
    ms[i].(opportunityScore := Opportunity(ms[i], NormOf(norm, codes[i]), SectorsOf(products, codes[i])))
  }

  /** The metrics with their opportunity scores filled in. */
  function Scored(codes: seq<string>, ms: seq<Metrics>, norm: map<string, real>, products: map<string, Product>): (r: seq<Metrics>)
    requires |codes| == |ms|
    ensures |r| == |ms| && forall i :: 0 <= i < |ms| ==> r[i] == ScoredAt(codes, ms, norm, products, i)
  {
    seq(|ms|, i requires 0 <= i < |ms| => ScoredAt(codes, ms, norm, products, i))
  }

  /** Every product's final metrics, or the error that stops the job. */
  function ProgressOf(codes: seq<string>, monthlyOf: string -> seq<MonthTotal>, baselines: map<string, BaselineRow>,
                      products: map<string, Product>, shares: SharesQuery, log1p: real -> real): (r: Result<seq<Metrics>>)
    ensures r.Ok? ==> |r.value| == |codes|
  {
    match FirstPhaseAll(codes, monthlyOf, baselines, shares)
    case Err(e) => Err(e)
    case Ok(ms) => Ok(Scored(codes, ms, NormLog(CurrentTotals(codes, ms), log1p), products))
  }

  /** The `import_progress` row written for a product. */
  function ProgressRowOf(baseline: Option<BaselineRow>, m: Metrics): ProgressRow {
    ProgressRow(if baseline.Some? then baseline.value.value else None, m.current, m.reductionAbs, m.reductionPct,
                m.hhiBaseline, m.hhiCurrent, m.concentrationShift, m.opportunityScore)
  }

  /** The `import_progress` table after every product's row is upserted in order. */
  function StoreProgress(table: map<string, ProgressRow>, codes: seq<string>, ms: seq<Metrics>,
                         baselines: map<string, BaselineRow>): map<string, ProgressRow>
    requires |codes| == |ms|
  {
    if codes == [] then table
    else
      var n := |codes| - 1;
      StoreProgress(table, codes[..n], ms[..n], baselines)[codes[n] := ProgressRowOf(BaselineFor(baselines, codes[n]), ms[n])]
  }

  /**
   * `recompute_progress`: the first loop computes every product's metrics and the
   * current totals, the log-scaled normalisation is taken over those totals, the
   * second loop fills in the opportunity scores, and the third writes one row per
   * product. `codes` is the product query (the primary keys of `products`),
   * `monthlyOf` the monthly query and `shares` the partner query. A malformed stored
   * period raises before anything is written.
   */
  method RecomputeProgress(db: Database, codes: seq<string>, monthlyOf: string -> seq<MonthTotal>,
                           shares: SharesQuery, log1p: real -> real) returns (r: Result<nat>)
    requires ListsProducts(codes, db.products)
    modifies db
    ensures var expected := ProgressOf(codes, monthlyOf, old(db.baselines), old(db.products), shares, log1p);
      && (r.Err? <==> expected.Err?)
      && (r.Err? ==> r.error == expected.error && db.progress == old(db.progress))
      && (r.Ok? ==> (r.value == |codes| == |db.products| &&
            db.progress == StoreProgress(old(db.progress), codes, expected.value, old(db.baselines))))
    ensures db.products == old(db.products) && db.monthly == old(db.monthly)
    ensures db.nullPartner == old(db.nullPartner) && db.baselines == old(db.baselines)
  {
    var first, totals := FirstLoop(codes, monthlyOf, db.baselines, shares);
    if first.Err? {
      return Err(first.error);
    }
    var norm := NormLog(totals, log1p);
    var metrics := ScoreLoop(codes, first.value, norm, db.products);
    StoreLoop(db, codes, metrics);
    ListsProductsCount(codes, db.products);
    return Ok(|codes|);
  }

  /** The first loop of `recompute_progress`: metrics and current totals, product by product. */
  method FirstLoop(codes: seq<string>, monthlyOf: string -> seq<MonthTotal>,
                   baselines: map<string, BaselineRow>, shares: SharesQuery)
    returns (r: Result<seq<Metrics>>, totals: seq<(string, Option<real>)>)
    ensures r == FirstPhaseAll(codes, monthlyOf, baselines, shares)
    ensures r.Ok? ==> totals == CurrentTotals(codes, r.value)
  {
    var metrics: seq<Metrics> := [];
    totals := [];
    var i := 0;
    while i < |codes|
      invariant 0 <= i <= |codes|
      invariant FirstPhaseAll(codes[..i], monthlyOf, baselines, shares) == Ok(metrics)
      invariant |metrics| == i && totals == CurrentTotals(codes[..i], metrics)
    {
      var code := codes[i];
      var m := FirstPhase(code, monthlyOf(code), BaselineFor(baselines, code), shares);
      FirstPhaseAllStep(codes, i, monthlyOf, baselines, shares);
      if m.Err? {
        FirstPhaseErrorSticks(codes, i + 1, monthlyOf, baselines, shares);
        return Err(m.error), totals;
      }
      CurrentTotalsStep(codes, i, metrics, m.value);
      metrics := metrics + [m.value];
      if m.value.current.Some? {
        totals := totals + [(code, m.value.current)];
      }
      i := i + 1;
    }
    assert codes[..i] == codes;
    r := Ok(metrics);
  }

  /** The second loop of `recompute_progress`: each product's opportunity score, set in place. */
  method ScoreLoop(codes: seq<string>, firstPhase: seq<Metrics>, norm: map<string, real>, products: map<string, Product>)
    returns (metrics: seq<Metrics>)
    requires |codes| == |firstPhase|
    ensures metrics == Scored(codes, firstPhase, norm, products)
  {
    metrics := firstPhase;
    var k := 0;
    while k < |metrics|
      invariant 0 <= k <= |metrics| == |codes| == |firstPhase|
      invariant forall i :: 0 <= i < k ==> metrics[i] == ScoredAt(codes, firstPhase, norm, products, i)
      invariant forall i :: k <= i < |metrics| ==> metrics[i] == firstPhase[i]
    {
      var metric := metrics[k];
      var score: Option<real>;
      if metric.current.None? {
        score := None;
      } else {
        var hhiCurrent := OrZero(metric.hhiCurrent);
        var techScore := TechFeasibilityFor(SectorsOf(products, codes[k]));
        var importValue := NormOf(norm, codes[k]);
        score := Some(importValue * (1.0 - hhiCurrent) * techScore * 1.0);
        assert techScore == TechFeasibility(SectorsOf(products, codes[k]));
        assert score.value == importValue * (1.0 - OrZero(metric.hhiCurrent)) * TechFeasibility(SectorsOf(products, codes[k])) * 1.0;
        assert Opportunity(metric, importValue, SectorsOf(products, codes[k])).value == importValue * (1.0 - OrZero(metric.hhiCurrent)) * TechFeasibility(SectorsOf(products, codes[k])) * 1.0;
        assert score == Opportunity(metric, importValue, SectorsOf(products, codes[k]));
      }
      assert metric.(opportunityScore := score) == ScoredAt(codes, firstPhase, norm, products, k);
      metrics := metrics[k := metric.(opportunityScore := score)];
      k := k + 1;
    }
  }

  /** The third loop of `recompute_progress`: one upsert per product. */
  method StoreLoop(db: Database, codes: seq<string>, metrics: seq<Metrics>)
    requires |codes| == |metrics|
    modifies db
    ensures db.progress == StoreProgress(old(db.progress), codes, metrics, old(db.baselines))
    ensures db.products == old(db.products) && db.monthly == old(db.monthly)
    ensures db.nullPartner == old(db.nullPartner) && db.baselines == old(db.baselines)
  {
    var j := 0;
    while j < |codes|
      invariant 0 <= j <= |codes|
      invariant db.progress == StoreProgress(old(db.progress), codes[..j], metrics[..j], old(db.baselines))
      invariant db.products == old(db.products) && db.monthly == old(db.monthly)
      invariant db.nullPartner == old(db.nullPartner) && db.baselines == old(db.baselines)
    {
      assert codes[..j + 1][..j] == codes[..j];
      assert metrics[..j + 1][..j] == metrics[..j];
      db.UpsertProgress(codes[j], ProgressRowOf(BaselineFor(db.baselines, codes[j]), metrics[j]));
      j := j + 1;
    }
    assert codes[..j] == codes && metrics[..j] == metrics;
  }

  /** One more product in the first loop. */
  lemma FirstPhaseAllStep(codes: seq<string>, i: int, monthlyOf: string -> seq<MonthTotal>,
                          baselines: map<string, BaselineRow>, shares: SharesQuery)
    requires 0 <= i < |codes| && FirstPhaseAll(codes[..i], monthlyOf, baselines, shares).Ok?
    ensures FirstPhaseAll(codes[..i + 1], monthlyOf, baselines, shares) ==
      match FirstPhase(codes[i], monthlyOf(codes[i]), BaselineFor(baselines, codes[i]), shares)
      case Err(e) => Err(e)
      case Ok(m) => Ok(FirstPhaseAll(codes[..i], monthlyOf, baselines, shares).value + [m])
  {
    assert codes[..i + 1][..i] == codes[..i];
  }

  /** One more product's metrics add its current total, when it has one, to the totals. */
  lemma CurrentTotalsStep(codes: seq<string>, i: int, ms: seq<Metrics>, m: Metrics)
    requires 0 <= i < |codes| && |ms| == i
    ensures CurrentTotals(codes[..i + 1], ms + [m]) ==
      CurrentTotals(codes[..i], ms) + (if m.current.Some? then [(codes[i], m.current)] else [])
  {
    assert codes[..i + 1][..i] == codes[..i];
    assert (ms + [m])[..i] == ms;
  }

  /** Once the first loop fails on a prefix of the products, the whole job fails with that error. */
  lemma {:induction false} FirstPhaseErrorSticks(codes: seq<string>, n: nat, monthlyOf: string -> seq<MonthTotal>,
                                                 baselines: map<string, BaselineRow>, shares: SharesQuery)
    requires n <= |codes| && FirstPhaseAll(codes[..n], monthlyOf, baselines, shares).Err?
    ensures FirstPhaseAll(codes, monthlyOf, baselines, shares) == FirstPhaseAll(codes[..n], monthlyOf, baselines, shares)
    decreases |codes| - n
  {
    if n < |codes| {
      assert codes[..n + 1][..n] == codes[..n];
      FirstPhaseErrorSticks(codes, n + 1, monthlyOf, baselines, shares);
    } else {
      assert codes[..n] == codes;
    }
  }

  /* ---------- properties of the progress metrics ---------- */

  /** A product with fewer than 12 months, or whose last 12 months have a gap, gets all-NULL metrics. */
  lemma FirstPhaseWithoutWindow(code: string, monthly: seq<MonthTotal>, baseline: Option<BaselineRow>, shares: SharesQuery)
    requires |monthly| < 12 || !Contiguous(MonthsOf(CurrentWindow(monthly)))
    ensures FirstPhase(code, monthly, baseline, shares) == Ok(NoMetrics)
    ensures forall normValue, sectors :: Opportunity(NoMetrics, normValue, sectors) == None
  {
  }

  /**
   * With a contiguous 12-month window the current total is the window's sum, the current
   * index is taken over the window's first and last month, and a baseline index exists
   * only when the stored period names its bounds.
   */
  lemma FirstPhaseWindow(code: string, monthly: seq<MonthTotal>, baseline: Option<BaselineRow>, shares: SharesQuery)
    requires |monthly| >= 12 && Contiguous(MonthsOf(CurrentWindow(monthly)))
    ensures var period := ParsePeriod(if baseline.Some? then baseline.value.period else None);
      && (FirstPhase(code, monthly, baseline, shares).Err? <==> period.Err?)
      && (period.Ok? ==>
            var m := FirstPhase(code, monthly, baseline, shares).value;
            var window := CurrentWindow(monthly);
            && m.current == Some(WindowTotal(window))
            && m.hhiCurrent == HhiOf(shares(code, (window[0].year, window[0].month), (window[11].year, window[11].month)))
            && (m.hhiBaseline.Some? ==> period.value.Some?)
            && m.opportunityScore.None?)
  {
  }

  /** The reduction is known exactly when the baseline is, and closes the gap to it; the
      relative reduction is its fraction of a non-zero baseline. */
  lemma ReductionSpec(baseline: Option<real>, current: real)
    ensures Reduction(baseline, current).Some? <==> baseline.Some?
    ensures baseline.Some? ==> current + Reduction(baseline, current).value == baseline.value
    ensures var pct := ReductionPct(baseline, Reduction(baseline, current));
      && (pct.None? <==> baseline.None? || baseline.value == 0.0)
      && (pct.Some? ==> pct.value * baseline.value == baseline.value - current)
      && (pct.Some? && baseline.value > 0.0 ==> (pct.value > 0.0 <==> current < baseline.value))
  {
    if baseline.Some? && baseline.value != 0.0 {
      var b := baseline.value;
      var pct := (b - current) / b;
      assert pct * b == b - current;
      if b > 0.0 {
        if pct > 0.0 {
          MulPositive(pct, b);
        }
        if current < b {
          assert pct == (b - current) / b;
        }
      }
    }
  }

  /** The shift is known when either index is, and is positive exactly when the market
      became less concentrated. */
  lemma ConcentrationShiftSpec(hhiBaseline: Option<real>, hhiCurrent: Option<real>)
    ensures ConcentrationShift(hhiBaseline, hhiCurrent).None? <==> hhiBaseline.None? && hhiCurrent.None?
    ensures hhiBaseline.Some? && hhiCurrent.Some? ==>
      && ConcentrationShift(hhiBaseline, hhiCurrent).value + hhiCurrent.value == hhiBaseline.value
      && (ConcentrationShift(hhiBaseline, hhiCurrent).value > 0.0 <==> hhiCurrent.value < hhiBaseline.value)
  {
  }

  lemma {:induction false} AsSharesSum(xs: seq<real>)
    ensures SumShares(AsShares(xs)) == Sum(xs)
    ensures (forall x :: x in xs ==> x >= 0.0) ==> NonNegativeShares(AsShares(xs))
  {
    if xs != [] {
      var front := xs[..|xs| - 1];
      AsSharesSum(front);
      assert AsShares(xs)[..|xs| - 1] == AsShares(front);
      if forall x :: x in xs ==> x >= 0.0 {
        assert forall x :: x in front ==> x in xs;
        assert forall i :: 0 <= i < |xs| - 1 ==> AsShares(xs)[i] == AsShares(front)[i];
        assert xs[|xs| - 1] in xs && AsShares(xs)[|xs| - 1] == Some(xs[|xs| - 1]);
      }
    }
  }

  /** Non-negative partner totals. */
  predicate NonNegativeTotals(totals: seq<PartnerTotal>) {
    forall k :: 0 <= k < |totals| && totals[k].1.Some? ==> totals[k].1.value >= 0.0
  }

  /** Over non-negative partner totals the concentration index is known exactly when the
      known total is positive, and then lies in `(0, 1]`. */
  lemma HhiOfSpec(totals: seq<PartnerTotal>)
    requires NonNegativeTotals(totals)
    ensures HhiOf(totals).Some? <==> KnownTotal(totals) > 0.0
    ensures HhiOf(totals).Some? ==> 0.0 < HhiOf(totals).value <= 1.0
  {
    var total := KnownTotal(totals);
    if total > 0.0 {
      var values := ShareValues(PartnerShares(totals));
      assert PartnerShares(totals) == Fractions(totals, total);
      PartnerSharesSumToOne(totals);
      FractionsNonNegative(totals, total);
      AsSharesSum(values);
      HhiBounds(AsShares(values));
    } else {
      assert ShareValues(PartnerShares(totals)) == [];
    }
  }

  /** Product `i` of a successful first loop has the metrics of its own first phase. */
  lemma {:induction false} FirstPhaseAllAt(codes: seq<string>, monthlyOf: string -> seq<MonthTotal>,
                                           baselines: map<string, BaselineRow>, shares: SharesQuery, i: int)
    requires FirstPhaseAll(codes, monthlyOf, baselines, shares).Ok? && 0 <= i < |codes|
    ensures FirstPhase(codes[i], monthlyOf(codes[i]), BaselineFor(baselines, codes[i]), shares) ==
      Ok(FirstPhaseAll(codes, monthlyOf, baselines, shares).value[i])
  {
    var n := |codes| - 1;
    var front := codes[..n];
    if i < n {
      assert front[i] == codes[i];
      FirstPhaseAllAt(front, monthlyOf, baselines, shares, i);
    }
  }

  /** The products in the current totals are those with a current total. */
  lemma {:induction false} CurrentTotalsKeys(codes: seq<string>, ms: seq<Metrics>)
    requires |codes| == |ms|
    ensures KeysOf(CurrentTotals(codes, ms)) == set i | 0 <= i < |codes| && ms[i].current.Some? :: codes[i]
  {
    if codes != [] {
      var n := |codes| - 1;
      CurrentTotalsKeys(codes[..n], ms[..n]);
      var front := CurrentTotals(codes[..n], ms[..n]);
      var all := CurrentTotals(codes, ms);
      assert all[..|front|] == front;
      forall c | c in KeysOf(all) ensures c in set i | 0 <= i < |codes| && ms[i].current.Some? :: codes[i] {
        var j :| 0 <= j < |all| && all[j].0 == c;
        if j < |front| {
          assert front[j] == all[j];
          assert c in KeysOf(front);
          var k :| 0 <= k < n && ms[..n][k].current.Some? && codes[..n][k] == c;
          assert ms[k] == ms[..n][k] && codes[k] == codes[..n][k];
        } else {
          assert c == codes[n] && ms[n].current.Some?;
        }
      }
      forall k | 0 <= k < |codes| && ms[k].current.Some? ensures codes[k] in KeysOf(all) {
        if k < n {
          assert ms[..n][k] == ms[k] && codes[..n][k] == codes[k];
          assert codes[k] in KeysOf(front);
          var j :| 0 <= j < |front| && front[j].0 == codes[k];
          assert all[j] == front[j];
        } else {
          assert all[|all| - 1] == (codes[n], ms[n].current);
        }
      }
    }
  }

  /**
   * In the final metrics a product has an opportunity score exactly when it has a current
   * total; its other metrics are those of the first loop, and its score uses its own entry
   * of the normalised current totals (never the fallback 0).
   */
  lemma ProgressOpportunity(codes: seq<string>, monthlyOf: string -> seq<MonthTotal>, baselines: map<string, BaselineRow>,
                            products: map<string, Product>, shares: SharesQuery, log1p: real -> real, i: int)
    requires ProgressOf(codes, monthlyOf, baselines, products, shares, log1p).Ok? && 0 <= i < |codes|
    ensures FirstPhaseAll(codes, monthlyOf, baselines, shares).Ok?
    ensures var first := FirstPhaseAll(codes, monthlyOf, baselines, shares).value;
      var m := ProgressOf(codes, monthlyOf, baselines, products, shares, log1p).value[i];
      var norm := NormLog(CurrentTotals(codes, first), log1p);
      && m == first[i].(opportunityScore := m.opportunityScore)
      && (m.opportunityScore.Some? <==> m.current.Some?)
      && (m.current.Some? ==>
            codes[i] in norm && m.opportunityScore == Opportunity(first[i], norm[codes[i]], SectorsOf(products, codes[i])))
  {
    var first := FirstPhaseAll(codes, monthlyOf, baselines, shares).value;
    var totals := CurrentTotals(codes, first);
    if first[i].current.Some? {
      CurrentTotalsKeys(codes, first);
      NormLogKeys(totals, log1p);
      assert codes[i] in set j | 0 <= j < |codes| && first[j].current.Some? :: codes[j];
    }
  }

  lemma MulUnitBelow(a: real, x: real)
    requires 0.0 <= a <= 1.0 && 0.0 <= x
    ensures 0.0 <= a * x <= x
  {
    MulNonNegative(a, x);
    MulNonNegative(1.0 - a, x);
    assert (1.0 - a) * x == x - a * x;
  }

  /** A score built from a normalised value and an index in `[0, 1]` lies in `[0, 0.7]`. */
  lemma OpportunityBounds(m: Metrics, normValue: real, sectors: Option<seq<string>>)
    requires 0.0 <= normValue <= 1.0
    requires m.hhiCurrent.Some? ==> 0.0 <= m.hhiCurrent.value <= 1.0
    ensures Opportunity(m, normValue, sectors).Some? <==> m.current.Some?
    ensures Opportunity(m, normValue, sectors).Some? ==> 0.0 <= Opportunity(m, normValue, sectors).value <= 0.7
  {
    if m.current.Some? {
      TechFeasibilitySpec(sectors);
      var h := OrZero(m.hhiCurrent);
      var t := TechFeasibility(sectors);
      MulUnitBelow(normValue, 1.0 - h);
      MulUnitBelow(normValue * (1.0 - h), t);
    }
  }

  /** Over non-negative partner totals the first phase's current index is in `[0, 1]`. */
  lemma FirstPhaseHhiBounds(code: string, monthly: seq<MonthTotal>, baseline: Option<BaselineRow>, shares: SharesQuery)
    requires forall c, s, e :: NonNegativeTotals(shares(c, s, e))
    requires FirstPhase(code, monthly, baseline, shares).Ok?
    ensures var m := FirstPhase(code, monthly, baseline, shares).value;
      m.hhiCurrent.Some? ==> 0.0 < m.hhiCurrent.value <= 1.0
  {
    if |monthly| >= 12 && Contiguous(MonthsOf(CurrentWindow(monthly))) {
      var window := CurrentWindow(monthly);
      FirstPhaseWindow(code, monthly, baseline, shares);
      HhiOfSpec(shares(code, (window[0].year, window[0].month), (window[11].year, window[11].month)));
    }
  }

  /** With non-negative partner totals every opportunity score lies in `[0, 0.7]`. */
  lemma ProgressOpportunityBounds(codes: seq<string>, monthlyOf: string -> seq<MonthTotal>, baselines: map<string, BaselineRow>,
                                  products: map<string, Product>, shares: SharesQuery, log1p: real -> real, i: int)
    requires forall c, s, e :: NonNegativeTotals(shares(c, s, e))
    requires ProgressOf(codes, monthlyOf, baselines, products, shares, log1p).Ok? && 0 <= i < |codes|
    ensures var m := ProgressOf(codes, monthlyOf, baselines, products, shares, log1p).value[i];
      m.opportunityScore.Some? ==> 0.0 <= m.opportunityScore.value <= 0.7
  {
    ProgressOpportunity(codes, monthlyOf, baselines, products, shares, log1p, i);
    var first := FirstPhaseAll(codes, monthlyOf, baselines, shares).value;
    var m := ProgressOf(codes, monthlyOf, baselines, products, shares, log1p).value[i];
    if m.current.Some? {
      var code := codes[i];
      var norm := NormLog(CurrentTotals(codes, first), log1p);
      FirstPhaseAllAt(codes, monthlyOf, baselines, shares, i);
      FirstPhaseHhiBounds(code, monthlyOf(code), BaselineFor(baselines, code), shares);
      NormLogBounds(CurrentTotals(codes, first), log1p);
      OpportunityBounds(first[i], norm[code], SectorsOf(products, code));
    }
  }
}
