/**
 * The storage layer: the `products`, `monthly_imports`, `baseline_imports` and
 * `import_progress` tables as maps keyed by their natural keys, the upserts that
 * write them, and the post-processing done on the rows that SELECTs return.
 */
module Db {
  import opened Wrappers

  /** A `products` row (timestamps are not modelled). */
  datatype Product = Product(
    title: string,
    description: string,
    sectors: seq<string>,
    granularity: int,
    capexMin: Option<real>,
    capexMax: Option<real>)

  /** The arguments of `upsert_product`. */
  datatype ProductInput = ProductInput(
    hsCode: string,
    title: string,
    description: string,
    sectors: seq<string>,
    capexMin: Option<real>,
    capexMax: Option<real>)

  /** The arguments of `insert_monthly`, and one tuple of `bulk_insert_monthly`. */
  datatype MonthlyRow = MonthlyRow(
    hsCode: string,
    year: int,
    month: int,
    valueUsd: Option<real>,
    valueInr: Option<real>,
    fxRate: Option<real>,
    qty: Option<real>,
    partner: Option<string>)

  /** The unique index `(hs_code, year, month, partner_country)` for a non-NULL partner. */
  datatype MonthlyKey = MonthlyKey(hsCode: string, year: int, month: int, partner: string)

  /** The columns an upsert of `monthly_imports` writes. */
  datatype Measures = Measures(valueUsd: Option<real>, valueInr: Option<real>, fxRate: Option<real>, qty: Option<real>)

  /** A `baseline_imports` row. */
  datatype BaselineRow = BaselineRow(value: Option<real>, period: Option<string>)

  /** An `import_progress` row. */
  datatype ProgressRow = ProgressRow(
    baseline: Option<real>,
    current: Option<real>,
    reductionAbs: Option<real>,
    reductionPct: Option<real>,
    hhiBaseline: Option<real>,
    hhiCurrent: Option<real>,
    concentrationShift: Option<real>,
    opportunityScore: Option<real>)

  /** The column default of `granularity`. */
  const DefaultGranularity: int := 6

  /** SQL `COALESCE(incoming, existing)`. */
  function Coalesce(incoming: Option<real>, existing: Option<real>): Option<real> {
    if incoming.Some? then incoming else existing
  }

  /** The `products` row after `upsert_product`: a fresh row, or the conflict update. */
  function UpsertedProduct(existing: Option<Product>, p: ProductInput): Product {
    match existing
    case None => Product(p.title, p.description, p.sectors, DefaultGranularity, p.capexMin, p.capexMax)
    case Some(e) =>
      Product(p.title, p.description, p.sectors, e.granularity, Coalesce(p.capexMin, e.capexMin), Coalesce(p.capexMax, e.capexMax))
  }

  /** The `products` table after `upsert_product`. */
  function UpsertProductIn(products: map<string, Product>, p: ProductInput): map<string, Product> {
    var existing := if p.hsCode in products then Some(products[p.hsCode]) else None;
    products[p.hsCode := UpsertedProduct(existing, p)]
  }

  /**
   * `upsert_product` inserts an absent code; on conflict it replaces title,
   * description and sectors and keeps an old capex bound the input leaves NULL.
   * No other code changes.
   */
  lemma UpsertProductSpec(products: map<string, Product>, p: ProductInput)
    ensures UpsertProductIn(products, p).Keys == products.Keys + {p.hsCode}
    ensures forall c :: c in products && c != p.hsCode ==> UpsertProductIn(products, p)[c] == products[c]
    ensures var r := UpsertProductIn(products, p)[p.hsCode];
      && r.title == p.title && r.description == p.description && r.sectors == p.sectors
      && (p.hsCode !in products ==> r.capexMin == p.capexMin && r.capexMax == p.capexMax && r.granularity == DefaultGranularity)
      && (p.hsCode in products ==>
            && r.granularity == products[p.hsCode].granularity
            && r.capexMin == (if p.capexMin.None? then products[p.hsCode].capexMin else p.capexMin)
            && r.capexMax == (if p.capexMax.None? then products[p.hsCode].capexMax else p.capexMax))
  {
  }

  /** Upserting the same product twice leaves the table as upserting it once. */
  lemma UpsertProductIdempotent(products: map<string, Product>, p: ProductInput)
    ensures UpsertProductIn(UpsertProductIn(products, p), p) == UpsertProductIn(products, p)
  {
  }

  /**
   * `codes` is what `SELECT hs_code FROM products` returns: every primary key of
   * `products`, each once.
   */
  predicate ListsProducts(codes: seq<string>, products: map<string, Product>) {
    && (forall c :: c in codes ==> c in products)
    && (forall c :: c in products ==> c in codes)
    && (forall i, j :: 0 <= i < j < |codes| ==> codes[i] != codes[j])
  }

  /** The distinct elements of a prefix are as many as its length. */
  lemma {:induction false} DistinctCount(codes: seq<string>, n: nat)
    requires n <= |codes| && forall i, j :: 0 <= i < j < |codes| ==> codes[i] != codes[j]
    ensures |set i | 0 <= i < n :: codes[i]| == n
  {
    if n > 0 {
      DistinctCount(codes, n - 1);
      var front := set i | 0 <= i < n - 1 :: codes[i];
      assert (set i | 0 <= i < n :: codes[i]) == front + {codes[n - 1]};
      assert codes[n - 1] !in front;
    }
  }

  /** The product query returns one code per product. */
  lemma ListsProductsCount(codes: seq<string>, products: map<string, Product>)
    requires ListsProducts(codes, products)
    ensures |codes| == |products|
  {
    DistinctCount(codes, |codes|);
    var listed := set i | 0 <= i < |codes| :: codes[i];
    assert listed == products.Keys by {
      forall c | c in products.Keys ensures c in listed {
        var i :| 0 <= i < |codes| && codes[i] == c;
      }
    }
  }

  function MeasuresOf(row: MonthlyRow): Measures {
    Measures(row.valueUsd, row.valueInr, row.fxRate, row.qty)
  }

  function KeyOf(row: MonthlyRow): MonthlyKey
    requires row.partner.Some?
  {
    MonthlyKey(row.hsCode, row.year, row.month, row.partner.value)
  }

  /** The keyed part of `monthly_imports` after `insert_monthly(row)`: a non-NULL
      partner conflicts on its key and overwrites the measures, NULLs included. */
  function InsertMonthlyIn(monthly: map<MonthlyKey, Measures>, row: MonthlyRow): map<MonthlyKey, Measures> {
    if row.partner.Some? then monthly[KeyOf(row) := MeasuresOf(row)] else monthly
  }

  /** The rows with a NULL partner after `insert_monthly(row)`: NULL never conflicts
      in a unique index, so each such insert adds a row. */
  function InsertNullPartnerIn(unkeyed: seq<MonthlyRow>, row: MonthlyRow): seq<MonthlyRow> {
    if row.partner.None? then unkeyed + [row] else unkeyed
  }

  /**
   * `insert_monthly` overwrites all four measures of its key, NULLs included, and
   * leaves every other key as it was.
   */
  lemma InsertMonthlySpec(monthly: map<MonthlyKey, Measures>, row: MonthlyRow)
    requires row.partner.Some?
    ensures InsertMonthlyIn(monthly, row).Keys == monthly.Keys + {KeyOf(row)}
    ensures InsertMonthlyIn(monthly, row)[KeyOf(row)] == Measures(row.valueUsd, row.valueInr, row.fxRate, row.qty)
    ensures forall k :: k in monthly && k != KeyOf(row) ==> InsertMonthlyIn(monthly, row)[k] == monthly[k]
  {
  }

  /** With a partner, inserting the same row twice is the same as inserting it once. */
  lemma InsertMonthlyIdempotent(monthly: map<MonthlyKey, Measures>, row: MonthlyRow)
    requires row.partner.Some?
    ensures InsertMonthlyIn(InsertMonthlyIn(monthly, row), row) == InsertMonthlyIn(monthly, row)
  {
  }

  /** Without a partner it is not: every insert adds one more row. */
  lemma InsertNullPartnerNotIdempotent(unkeyed: seq<MonthlyRow>, row: MonthlyRow)
    requires row.partner.None?
    ensures |InsertNullPartnerIn(InsertNullPartnerIn(unkeyed, row), row)| == |unkeyed| + 2
  {
  }

  /** Rows written one after another, as repeated `insert_monthly` calls write them. */
  function InsertAllIn(monthly: map<MonthlyKey, Measures>, rows: seq<MonthlyRow>): map<MonthlyKey, Measures> {
    if rows == [] then monthly
    else InsertMonthlyIn(InsertAllIn(monthly, rows[..|rows| - 1]), rows[|rows| - 1])
  }

  function NullPartnerRows(rows: seq<MonthlyRow>): seq<MonthlyRow> {
    if rows == [] then []
    else NullPartnerRows(rows[..|rows| - 1]) + (if rows[|rows| - 1].partner.None? then [rows[|rows| - 1]] else [])
  }

  /** Row `i` is the last of `rows` for its key. */
  ghost predicate LastForKey(rows: seq<MonthlyRow>, i: int)
    requires 0 <= i < |rows| && rows[i].partner.Some?
  {
    forall j :: i < j < |rows| && rows[j].partner.Some? ==> KeyOf(rows[j]) != KeyOf(rows[i])
  }

  /**
   * After a bulk insert a key is present iff it was before or some row has it; a
   * key no row has keeps its old measures, and a key takes the measures of the last
   * row that has it.
   */
  lemma {:induction false} InsertAllSpec(monthly: map<MonthlyKey, Measures>, rows: seq<MonthlyRow>, k: MonthlyKey)
    ensures k in InsertAllIn(monthly, rows) <==>
      k in monthly || exists i :: 0 <= i < |rows| && rows[i].partner.Some? && KeyOf(rows[i]) == k
    ensures (forall i :: 0 <= i < |rows| && rows[i].partner.Some? ==> KeyOf(rows[i]) != k) && k in monthly ==>
      InsertAllIn(monthly, rows)[k] == monthly[k]
  {
    if rows != [] {
      var front := rows[..|rows| - 1];
      InsertAllSpec(monthly, front, k);
      assert forall i :: 0 <= i < |front| ==> front[i] == rows[i];
      if exists i :: 0 <= i < |front| && front[i].partner.Some? && KeyOf(front[i]) == k {
        var i :| 0 <= i < |front| && front[i].partner.Some? && KeyOf(front[i]) == k;
        assert rows[i].partner.Some? && KeyOf(rows[i]) == k;
      }
    }
  }

  /** The last row for a key decides its measures after a bulk insert. */
  lemma {:induction false} InsertAllLastWins(monthly: map<MonthlyKey, Measures>, rows: seq<MonthlyRow>, i: int)
    requires 0 <= i < |rows| && rows[i].partner.Some? && LastForKey(rows, i)
    ensures KeyOf(rows[i]) in InsertAllIn(monthly, rows)
    ensures InsertAllIn(monthly, rows)[KeyOf(rows[i])] == MeasuresOf(rows[i])
  {
    var front := rows[..|rows| - 1];
    if i < |rows| - 1 {
      assert front[i] == rows[i];
      assert forall j :: i < j < |front| ==> front[j] == rows[j];
      assert LastForKey(front, i);
      InsertAllLastWins(monthly, front, i);
    }
  }

  /** One more row written after `rows`. */
  lemma InsertAllSnoc(monthly: map<MonthlyKey, Measures>, rows: seq<MonthlyRow>, row: MonthlyRow)
    ensures InsertAllIn(monthly, rows + [row]) == InsertMonthlyIn(InsertAllIn(monthly, rows), row)
    ensures NullPartnerRows(rows + [row]) == NullPartnerRows(rows) + (if row.partner.None? then [row] else [])
  {
    assert (rows + [row])[..|rows|] == rows;
  }

  /** Row `j` of a page written after the rows `done` and the page's first `j` rows. */
  lemma InsertPageStep(monthly: map<MonthlyKey, Measures>, done: seq<MonthlyRow>, page: seq<MonthlyRow>, j: nat)
    requires j < |page|
    ensures InsertAllIn(monthly, done + page[..j + 1]) == InsertMonthlyIn(InsertAllIn(monthly, done + page[..j]), page[j])
    ensures NullPartnerRows(done + page[..j + 1]) ==
      NullPartnerRows(done + page[..j]) + (if page[j].partner.None? then [page[j]] else [])
  {
    assert done + page[..j + 1] == (done + page[..j]) + [page[j]];
    InsertAllSnoc(monthly, done + page[..j], page[j]);
  }

  /* ---------- bulk insert: `execute_values` pages ---------- */

  /** psycopg2's default `page_size` for `execute_values`: one statement per 100 rows. */
  const PageSize: nat := 100

  /** The error Postgres raises for a statement that proposes two rows for one key. */
  const CannotAffectRowTwice: string := "ON CONFLICT DO UPDATE command cannot affect row a second time"

  /** The statements `execute_values` sends: consecutive pages of 100 rows, the last one shorter. */
  function Pages(rows: seq<MonthlyRow>): seq<seq<MonthlyRow>>
    decreases |rows|
  {
    if rows == [] then []
    else if |rows| <= PageSize then [rows]
    else [rows[..PageSize]] + Pages(rows[PageSize..])
  }

  function Flatten(pages: seq<seq<MonthlyRow>>): seq<MonthlyRow> {
    if pages == [] then [] else Flatten(pages[..|pages| - 1]) + pages[|pages| - 1]
  }

  /** Two rows of the page have the same non-NULL key. */
  predicate RepeatsKey(page: seq<MonthlyRow>) {
    exists i, j :: 0 <= i < j < |page| && page[i].partner.Some? && page[j].partner.Some? &&
      KeyOf(page[i]) == KeyOf(page[j])
  }

  /** The index of the first page that repeats a key, or the number of pages when none does. */
  function FirstRepeat(pages: seq<seq<MonthlyRow>>): (r: nat)
    ensures r <= |pages|
    ensures forall i :: 0 <= i < r ==> !RepeatsKey(pages[i])
    ensures r < |pages| ==> RepeatsKey(pages[r])
  {
    if pages == [] then 0
    else if RepeatsKey(pages[0]) then 0
    else 1 + FirstRepeat(pages[1..])
  }

  lemma FirstRepeatAt(pages: seq<seq<MonthlyRow>>, p: nat)
    requires p <= |pages| && forall i :: 0 <= i < p ==> !RepeatsKey(pages[i])
    requires p < |pages| ==> RepeatsKey(pages[p])
    ensures FirstRepeat(pages) == p
  {
  }

  lemma {:induction false} FlattenConcat(a: seq<seq<MonthlyRow>>, b: seq<seq<MonthlyRow>>)
    ensures Flatten(a + b) == Flatten(a) + Flatten(b)
    decreases |b|
  {
    if b != [] {
      var b' := b[..|b| - 1];
      assert (a + b)[..|a + b| - 1] == a + b';
      FlattenConcat(a, b');
    } else {
      assert a + b == a;
    }
  }

  /** The pages cover the rows, in order. */
  lemma {:induction false} PagesFlatten(rows: seq<MonthlyRow>)
    ensures Flatten(Pages(rows)) == rows
    decreases |rows|
  {
    if |rows| > PageSize {
      var rest := rows[PageSize..];
      PagesFlatten(rest);
      FlattenConcat([rows[..PageSize]], Pages(rest));
      assert Flatten([rows[..PageSize]]) == rows[..PageSize] by {
        assert [rows[..PageSize]][..0] == [];
      }
      assert rows[..PageSize] + rest == rows;
    } else if rows != [] {
      assert [rows][..0] == [];
    }
  }

  /** Every page holds 1 to 100 rows, and all but the last exactly 100. */
  lemma {:induction false} PagesSizes(rows: seq<MonthlyRow>)
    ensures forall i :: 0 <= i < |Pages(rows)| ==> 1 <= |Pages(rows)[i]| <= PageSize
    ensures forall i :: 0 <= i < |Pages(rows)| - 1 ==> |Pages(rows)[i]| == PageSize
    decreases |rows|
  {
    if |rows| > PageSize {
      PagesSizes(rows[PageSize..]);
    }
  }

  lemma FlattenSnoc(pages: seq<seq<MonthlyRow>>, p: nat)
    requires p < |pages|
    ensures Flatten(pages[..p + 1]) == Flatten(pages[..p]) + pages[p]
  {
    assert pages[..p + 1][..p] == pages[..p];
  }

  /** Rows without a repeated key give pages without one. */
  lemma {:induction false} DistinctKeysNoRepeat(rows: seq<MonthlyRow>)
    requires !RepeatsKey(rows)
    ensures FirstRepeat(Pages(rows)) == |Pages(rows)|
    decreases |rows|
  {
    if |rows| > PageSize {
      var head, rest := rows[..PageSize], rows[PageSize..];
      assert !RepeatsKey(head) by {
        forall i, j | 0 <= i < j < |head| && head[i].partner.Some? && head[j].partner.Some?
          ensures KeyOf(head[i]) != KeyOf(head[j])
        {
          assert head[i] == rows[i] && head[j] == rows[j];
        }
      }
      assert !RepeatsKey(rest) by {
        forall i, j | 0 <= i < j < |rest| && rest[i].partner.Some? && rest[j].partner.Some?
          ensures KeyOf(rest[i]) != KeyOf(rest[j])
        {
          assert rest[i] == rows[PageSize + i] && rest[j] == rows[PageSize + j];
        }
      }
      DistinctKeysNoRepeat(rest);
      assert Pages(rows)[1..] == Pages(rest);
    }
  }

  /** Two rows of one page with the same key: the first statement fails and writes nothing. */
  lemma RepeatInFirstPage(rows: seq<MonthlyRow>, i: int, j: int)
    requires 0 <= i < j < |rows| && j < PageSize
    requires rows[i].partner.Some? && rows[j].partner.Some? && KeyOf(rows[i]) == KeyOf(rows[j])
    ensures FirstRepeat(Pages(rows)) == 0 < |Pages(rows)|
  {
    var page := Pages(rows)[0];
    assert page[i] == rows[i] && page[j] == rows[j];
  }

  /* ---------- loading: each product once, at its first occurrence ---------- */

  /** The codes of a sequence of product inputs. */
  function CodesOf(inputs: seq<ProductInput>): set<string> {
    set i | 0 <= i < |inputs| :: inputs[i].hsCode
  }

  /** Input `i` is the first with its code. */
  predicate FirstOccurrence(inputs: seq<ProductInput>, i: int) {
    0 <= i < |inputs| && forall j :: 0 <= j < i ==> inputs[j].hsCode != inputs[i].hsCode
  }

  /** The `products` table after a loader's `products_seen` loop: an input is upserted
      only when its code has not been seen earlier in the sequence. */
  function UpsertFirsts(products: map<string, Product>, inputs: seq<ProductInput>): map<string, Product> {
    if inputs == [] then products
    else
      var front := inputs[..|inputs| - 1];
      var last := inputs[|inputs| - 1];
      if last.hsCode in CodesOf(front) then UpsertFirsts(products, front)
      else UpsertProductIn(UpsertFirsts(products, front), last)
  }

  lemma CodesOfSnoc(inputs: seq<ProductInput>, p: ProductInput)
    ensures CodesOf(inputs + [p]) == CodesOf(inputs) + {p.hsCode}
  {
    var all := inputs + [p];
    assert forall i :: 0 <= i < |inputs| ==> all[i] == inputs[i];
    assert all[|inputs|] == p;
  }

  /** There are at most as many distinct codes as inputs, and at least one when there is an input. */
  lemma {:induction false} CodesOfBounds(inputs: seq<ProductInput>)
    ensures |CodesOf(inputs)| <= |inputs|
    ensures inputs != [] ==> |CodesOf(inputs)| >= 1
  {
    if inputs != [] {
      var front := inputs[..|inputs| - 1];
      assert front + [inputs[|inputs| - 1]] == inputs;
      CodesOfSnoc(front, inputs[|inputs| - 1]);
      CodesOfBounds(front);
    } else {
      assert CodesOf(inputs) == {};
    }
  }

  /** The loaded table holds the old codes and the loaded ones; codes not loaded keep their rows. */
  lemma {:induction false} UpsertFirstsKeys(products: map<string, Product>, inputs: seq<ProductInput>)
    ensures UpsertFirsts(products, inputs).Keys == products.Keys + CodesOf(inputs)
    ensures forall c :: c in products && c !in CodesOf(inputs) ==> UpsertFirsts(products, inputs)[c] == products[c]
  {
    if inputs != [] {
      var front := inputs[..|inputs| - 1];
      var last := inputs[|inputs| - 1];
      UpsertFirstsKeys(products, front);
      assert inputs == front + [last];
      CodesOfSnoc(front, last);
    }
  }

  /** A loaded code's row is the upsert of its first input alone: later inputs with
      the same code are not written. */
  lemma {:induction false} UpsertFirstsAt(products: map<string, Product>, inputs: seq<ProductInput>, i: int)
    requires FirstOccurrence(inputs, i)
    ensures inputs[i].hsCode in UpsertFirsts(products, inputs)
    ensures var c := inputs[i].hsCode;
      UpsertFirsts(products, inputs)[c] == UpsertedProduct(if c in products then Some(products[c]) else None, inputs[i])
  {
    var front := inputs[..|inputs| - 1];
    var last := inputs[|inputs| - 1];
    var c := inputs[i].hsCode;
    assert inputs == front + [last];
    CodesOfSnoc(front, last);
    if i < |inputs| - 1 {
      assert front[i] == inputs[i];
      assert FirstOccurrence(front, i);
      UpsertFirstsAt(products, front, i);
    } else {
      UpsertFirstsKeys(products, front);
      assert c !in CodesOf(front);
      assert c !in products ==> c !in UpsertFirsts(products, front);
      assert c in products ==> UpsertFirsts(products, front)[c] == products[c];
    }
  }

  /** The tables after a loader writes one more record, from the tables before it:
      the product is upserted only when its code is new, the row always inserted. */
  lemma LoadStep(products0: map<string, Product>, monthly0: map<MonthlyKey, Measures>, null0: seq<MonthlyRow>,
                 inputs: seq<ProductInput>, rows: seq<MonthlyRow>, input: ProductInput, row: MonthlyRow)
    ensures CodesOf(inputs + [input]) == CodesOf(inputs) + {input.hsCode}
    ensures UpsertFirsts(products0, inputs + [input]) ==
      (if input.hsCode in CodesOf(inputs) then UpsertFirsts(products0, inputs)
       else UpsertProductIn(UpsertFirsts(products0, inputs), input))
    ensures InsertAllIn(monthly0, rows + [row]) == InsertMonthlyIn(InsertAllIn(monthly0, rows), row)
    ensures null0 + NullPartnerRows(rows + [row]) == InsertNullPartnerIn(null0 + NullPartnerRows(rows), row)
  {
    assert (inputs + [input])[..|inputs|] == inputs;
    assert (rows + [row])[..|rows|] == rows;
    CodesOfSnoc(inputs, input);
  }

  /** SQL's test `(year, month)` within `start..end`, both ends included. */
  predicate InPeriod(year: int, month: int, start: (int, int), end: (int, int)) {
    && (year > start.0 || (year == start.0 && month >= start.1))
    && (year < end.0 || (year == end.0 && month <= end.1))
  }

  /** For real months the period test is the order of month keys `12 * year + month - 1`. */
  lemma InPeriodByMonthKey(year: int, month: int, start: (int, int), end: (int, int))
    requires 1 <= month <= 12 && 1 <= start.1 <= 12 && 1 <= end.1 <= 12
    ensures InPeriod(year, month, start, end) <==>
      12 * start.0 + start.1 - 1 <= 12 * year + month - 1 <= 12 * end.0 + end.1 - 1
  {
  }

  /** A row of the `partner_shares` query: a partner group (NULL is a group too) and its summed `value_usd`. */
  type PartnerTotal = (Option<string>, Option<real>)

  /** The sum of the non-NULL totals. */
  function KnownTotal(rows: seq<PartnerTotal>): real {
    if rows == [] then 0.0
    else KnownTotal(rows[..|rows| - 1]) + (if rows[|rows| - 1].1.Some? then rows[|rows| - 1].1.value else 0.0)
  }

  /** Each non-NULL total divided by `total`, in row order. */
  function Fractions(rows: seq<PartnerTotal>, total: real): seq<(Option<string>, real)>
    requires total != 0.0
  {
    if rows == [] then []
    else Fractions(rows[..|rows| - 1], total) + Fraction(rows[|rows| - 1], total)
  }

  /** The post-processing of `partner_shares`, as the ordered dictionary it returns. */
  function PartnerShares(rows: seq<PartnerTotal>): (r: seq<(Option<string>, real)>)
    ensures KnownTotal(rows) <= 0.0 ==> r == []
  {
    var total := KnownTotal(rows);
    if total <= 0.0 then [] else Fractions(rows, total)
  }

  /** The values of a share list (the source's `dict.values()`). */
  function ShareValues(shares: seq<(Option<string>, real)>): seq<real> {
    if shares == [] then [] else ShareValues(shares[..|shares| - 1]) + [shares[|shares| - 1].1]
  }

  function Sum(xs: seq<real>): real {
    if xs == [] then 0.0 else Sum(xs[..|xs| - 1]) + xs[|xs| - 1]
  }

  lemma {:induction false} SumConcat(a: seq<real>, b: seq<real>)
    ensures Sum(a + b) == Sum(a) + Sum(b)
    decreases |b|
  {
    if b != [] {
      assert (a + b)[..|a + b| - 1] == a + b[..|b| - 1];
      SumConcat(a, b[..|b| - 1]);
      assert (a + b)[|a + b| - 1] == b[|b| - 1];
    } else {
      assert a + b == a;
    }
  }

  lemma {:induction false} ShareValuesConcat(a: seq<(Option<string>, real)>, b: seq<(Option<string>, real)>)
    ensures ShareValues(a + b) == ShareValues(a) + ShareValues(b)
    decreases |b|
  {
    if b != [] {
      assert (a + b)[..|a + b| - 1] == a + b[..|b| - 1];
      ShareValuesConcat(a, b[..|b| - 1]);
      assert (a + b)[|a + b| - 1] == b[|b| - 1];
    } else {
      assert a + b == a;
    }
  }

  /** The share of one row: its total over `total`, or nothing for a NULL total. */
  function Fraction(row: PartnerTotal, total: real): seq<(Option<string>, real)>
    requires total != 0.0
  {
    if row.1.Some? then [(row.0, row.1.value / total)] else []
  }

  lemma FractionSum(row: PartnerTotal, total: real)
    requires total != 0.0
    ensures Sum(ShareValues(Fraction(row, total))) == (if row.1.Some? then row.1.value else 0.0) / total
  {
    if row.1.Some? {
      var f := [(row.0, row.1.value / total)];
      assert ShareValues(f) == ShareValues(f[..0]) + [row.1.value / total];
      assert f[..0] == [];
      assert Sum([row.1.value / total]) == Sum([]) + row.1.value / total;
    } else {
      assert 0.0 / total == 0.0;
    }
  }

  /** The fractions sum to the known total divided by `total`. */
  lemma {:induction false} FractionsSum(rows: seq<PartnerTotal>, total: real)
    requires total != 0.0
    ensures Sum(ShareValues(Fractions(rows, total))) == KnownTotal(rows) / total
  {
    if rows != [] {
      var front := rows[..|rows| - 1];
      var last := rows[|rows| - 1];
      FractionsSum(front, total);
      assert Fractions(rows, total) == Fractions(front, total) + Fraction(last, total);
      ShareValuesConcat(Fractions(front, total), Fraction(last, total));
      SumConcat(ShareValues(Fractions(front, total)), ShareValues(Fraction(last, total)));
      FractionSum(last, total);
      DivideSum(KnownTotal(front), if last.1.Some? then last.1.value else 0.0, total);
    } else {
      assert 0.0 / total == 0.0;
    }
  }

  lemma DivideSum(a: real, b: real, t: real)
    requires t != 0.0
    ensures a / t + b / t == (a + b) / t
  {
  }

  /**
   * What `partner_shares` promises: NULL totals are ignored, an empty or
   * non-positive sum gives no shares, and otherwise each share is the partner's
   * total over the sum, so the shares sum to one.
   */
  lemma PartnerSharesSumToOne(rows: seq<PartnerTotal>)
    requires KnownTotal(rows) > 0.0
    ensures Sum(ShareValues(PartnerShares(rows))) == 1.0
  {
    var total := KnownTotal(rows);
    assert PartnerShares(rows) == Fractions(rows, total);
    FractionsSum(rows, total);
    DivideSelf(total);
  }

  lemma DivideSelf(t: real)
    requires t != 0.0
    ensures t / t == 1.0
  {
  }

  /** Each share is its row's total over the sum: the `i`-th non-NULL row gives the `i`-th share. */
  lemma {:induction false} PartnerSharesOfRow(rows: seq<PartnerTotal>, total: real, i: int)
    requires total != 0.0 && 0 <= i < |rows| && rows[i].1.Some?
    ensures (rows[i].0, rows[i].1.value / total) in Fractions(rows, total)
  {
    var front := rows[..|rows| - 1];
    if i < |rows| - 1 {
      assert front[i] == rows[i];
      PartnerSharesOfRow(front, total, i);
    }
  }

  /** Non-negative totals give non-negative shares. */
  lemma {:induction false} FractionsNonNegative(rows: seq<PartnerTotal>, total: real)
    requires total > 0.0
    requires forall i :: 0 <= i < |rows| && rows[i].1.Some? ==> rows[i].1.value >= 0.0
    ensures forall x :: x in ShareValues(Fractions(rows, total)) ==> x >= 0.0
  {
    if rows != [] {
      var front := rows[..|rows| - 1];
      var last := rows[|rows| - 1];
      assert forall i :: 0 <= i < |front| ==> front[i] == rows[i];
      FractionsNonNegative(front, total);
      assert Fractions(rows, total) == Fractions(front, total) + Fraction(last, total);
      ShareValuesConcat(Fractions(front, total), Fraction(last, total));
      if last.1.Some? {
        assert ShareValues(Fraction(last, total)) == [last.1.value / total];
      } else {
        assert ShareValues(Fraction(last, total)) == [];
      }
    }
  }

  /**
   * A row of `fetch_last_36m`: one stored `monthly_imports` row, not a monthly
   * total, so a month with several partners gives several rows.
   */
  datatype SeriesPoint = SeriesPoint(year: int, month: int, valueUsd: Option<real>, valueInr: Option<real>,
                                     fxRate: Option<real>, qty: Option<real>, partner: Option<string>)

  function Later(a: SeriesPoint, b: SeriesPoint): bool {
    a.year > b.year || (a.year == b.year && a.month > b.month)
  }

  function Reverse<T>(s: seq<T>): (r: seq<T>)
    ensures |r| == |s| && forall i :: 0 <= i < |s| ==> r[i] == s[|s| - 1 - i]
  {
    if s == [] then [] else [s[|s| - 1]] + Reverse(s[..|s| - 1])
  }

  /**
   * `fetch_last_36m` over the query's rows in `year DESC, month DESC` order; rows
   * of the same month come in whatever order the database returns them.
   */
  function FetchLast36m(newestFirst: seq<SeriesPoint>): seq<SeriesPoint> {
    Reverse(newestFirst[..if |newestFirst| < 36 then |newestFirst| else 36])
  }

  /** No row is followed by a row of a later month. */
  predicate NewestFirst(s: seq<SeriesPoint>) {
    forall i, j :: 0 <= i < j < |s| ==> !Later(s[j], s[i])
  }

  /**
   * `fetch_last_36m` gives the first 36 rows of the newest-first query, reversed:
   * oldest month first, and no row left out is of a later month than a row
   * returned. A month may straddle the cut, with some of its rows on each side.
   */
  lemma FetchLast36mSpec(newestFirst: seq<SeriesPoint>)
    requires NewestFirst(newestFirst)
    ensures var r := FetchLast36m(newestFirst);
      && |r| == (if |newestFirst| < 36 then |newestFirst| else 36)
      && (forall i :: 0 <= i < |r| ==> r[i] == newestFirst[|r| - 1 - i])
      && (forall i, j :: 0 <= i < j < |r| ==> !Later(r[i], r[j]))
      && (forall k, p :: 36 <= k < |newestFirst| && p in r ==> !Later(newestFirst[k], p))
  {
    var r := FetchLast36m(newestFirst);
    var n := if |newestFirst| < 36 then |newestFirst| else 36;
    forall k, p | 36 <= k < |newestFirst| && p in r
      ensures !Later(newestFirst[k], p)
    {
      var i :| 0 <= i < |r| && r[i] == p;
      assert p == newestFirst[n - 1 - i];
    }
  }

  /**
   * With two partners in the month at the cut, one of its rows is returned and the
   * other left out: the rows returned are not the whole of their months.
   */
  lemma FetchLast36mSplitsMonth()
    ensures var older := SeriesPoint(2023, 1, Some(1.0), None, None, None, Some("CN"));
      var newer := seq(35, i requires 0 <= i < 35 => SeriesPoint(2024, 12, Some(2.0), None, None, None, Some("US")));
      var a := SeriesPoint(2023, 6, Some(3.0), None, None, None, Some("CN"));
      var b := SeriesPoint(2023, 6, Some(4.0), None, None, None, Some("DE"));
      var rows := newer + [a, b, older];
      && NewestFirst(rows)
      && a in FetchLast36m(rows) && b !in FetchLast36m(rows)
  {
    var older := SeriesPoint(2023, 1, Some(1.0), None, None, None, Some("CN"));
    var newer := seq(35, i requires 0 <= i < 35 => SeriesPoint(2024, 12, Some(2.0), None, None, None, Some("US")));
    var a := SeriesPoint(2023, 6, Some(3.0), None, None, None, Some("CN"));
    var b := SeriesPoint(2023, 6, Some(4.0), None, None, None, Some("DE"));
    var rows := newer + [a, b, older];
    var r := FetchLast36m(rows);
    assert rows[..36] == newer + [a];
    assert r[0] == a;
    forall i | 0 <= i < |r| ensures r[i] != b {
      assert r[i] == rows[35 - i];
    }
  }

  function MaxInt(xs: seq<int>): (m: int)
    requires xs != []
    ensures (forall x :: x in xs ==> x <= m) && m in xs
  {
    if |xs| == 1 then xs[0]
    else
      var rest := MaxInt(xs[..|xs| - 1]);
      assert forall x :: x in xs ==> x in xs[..|xs| - 1] || x == xs[|xs| - 1];
      if xs[|xs| - 1] > rest then xs[|xs| - 1] else rest
  }

  function Years(months: seq<(int, int)>): (r: seq<int>)
    ensures |r| == |months| && forall i :: 0 <= i < |months| ==> r[i] == months[i].0
  {
    seq(|months|, i requires 0 <= i < |months| => months[i].0)
  }

  function Months(months: seq<(int, int)>): (r: seq<int>)
    ensures |r| == |months| && forall i :: 0 <= i < |months| ==> r[i] == months[i].1
  {
    seq(|months|, i requires 0 <= i < |months| => months[i].1)
  }

  /** `latest_year_month` as written: `SELECT max(year), max(month)` over every
      `(year, month)` of `monthly_imports`. */
  function LatestYearMonthAsWritten(months: seq<(int, int)>): (r: Option<(int, int)>)
    ensures r.None? <==> months == []
    ensures r.Some? ==> forall m :: m in months ==> m.0 <= r.value.0 && m.1 <= r.value.1
    ensures r.Some? ==> (exists m :: m in months && m.0 == r.value.0) && (exists m :: m in months && m.1 == r.value.1)
  {
    if months == [] then None
    else
      var y := MaxInt(Years(months));
      var mo := MaxInt(Months(months));
      assert forall m :: m in months ==> m.0 in Years(months) && m.1 in Months(months);
      Some((y, mo))
  }

  /** The two maxima are taken independently, so the pair need not be a month in the table. */
  lemma LatestYearMonthAsWrittenUnobserved()
    ensures LatestYearMonthAsWritten([(2023, 12), (2024, 1)]) == Some((2024, 12))
    ensures (2024, 12) !in [(2023, 12), (2024, 1)]
  {
    var ms := [(2023, 12), (2024, 1)];
    assert Years(ms) == [2023, 2024];
    assert Months(ms) == [12, 1];
  }

  predicate NotLaterMonth(a: (int, int), b: (int, int)) {
    a.0 < b.0 || (a.0 == b.0 && a.1 <= b.1)
  }

  /** The latest month that has data, ordered by year and then month. */
  function LatestYearMonth(months: seq<(int, int)>): (r: Option<(int, int)>)
    ensures r.None? <==> months == []
    ensures r.Some? ==> r.value in months && forall m :: m in months ==> NotLaterMonth(m, r.value)
  {
    if months == [] then None
    else
      var rest := LatestYearMonth(months[..|months| - 1]);
      var last := months[|months| - 1];
      assert forall m :: m in months ==> m in months[..|months| - 1] || m == last;
      if rest.None? || NotLaterMonth(rest.value, last) then Some(last) else rest
  }

  /**
   * The tables. Rows of `monthly_imports` with a NULL partner never conflict on the
   * unique index, so they are kept apart in insertion order.
   */
  class Database {
    var products: map<string, Product>
    var monthly: map<MonthlyKey, Measures>
    var nullPartner: seq<MonthlyRow>
    var baselines: map<string, BaselineRow>
    var progress: map<string, ProgressRow>

    constructor()
      ensures products == map[] && monthly == map[] && nullPartner == []
      ensures baselines == map[] && progress == map[]
    {
      products := map[];
      monthly := map[];
      nullPartner := [];
      baselines := map[];
      progress := map[];
    }

    /** `upsert_product`. */
    method UpsertProduct(p: ProductInput)
      modifies this
      ensures products == UpsertProductIn(old(products), p)
      ensures monthly == old(monthly) && nullPartner == old(nullPartner)
      ensures baselines == old(baselines) && progress == old(progress)
    {
      products := UpsertProductIn(products, p);
    }

    /** `insert_monthly`. */
    method InsertMonthly(row: MonthlyRow)
      modifies this
      ensures monthly == InsertMonthlyIn(old(monthly), row)
      ensures nullPartner == InsertNullPartnerIn(old(nullPartner), row)
      ensures products == old(products) && baselines == old(baselines) && progress == old(progress)
    {
      if row.partner.Some? {
        monthly := monthly[KeyOf(row) := MeasuresOf(row)];
      } else {
        nullPartner := nullPartner + [row];
      }
    }

    /**
     * `bulk_insert_monthly`: 0 for no rows; otherwise `execute_values` sends the
     * pages in order, each one statement. A page with two rows for one key fails
     * as a whole and raises, after the pages before it were written; when none
     * does, every row is upserted in order and the count of rows is returned.
     */
    method BulkInsertMonthly(rows: seq<MonthlyRow>) returns (r: Result<nat>)
      modifies this
      ensures var pages := Pages(rows);
        var written := Flatten(pages[..FirstRepeat(pages)]);
        && (r.Ok? <==> FirstRepeat(pages) == |pages|)
        && (r.Err? ==> r.error == CannotAffectRowTwice)
        && monthly == InsertAllIn(old(monthly), written)
        && nullPartner == old(nullPartner) + NullPartnerRows(written)
      ensures r.Ok? ==> (r.value == |rows| && monthly == InsertAllIn(old(monthly), rows) &&
                         nullPartner == old(nullPartner) + NullPartnerRows(rows))
      ensures products == old(products) && baselines == old(baselines) && progress == old(progress)
    {
      var pages := Pages(rows);
      var p := 0;
      while p < |pages|
        invariant 0 <= p <= |pages|
        invariant forall i :: 0 <= i < p ==> !RepeatsKey(pages[i])
        invariant monthly == InsertAllIn(old(monthly), Flatten(pages[..p]))
        invariant nullPartner == old(nullPartner) + NullPartnerRows(Flatten(pages[..p]))
        invariant products == old(products) && baselines == old(baselines) && progress == old(progress)
      {
        if RepeatsKey(pages[p]) {
          FirstRepeatAt(pages, p);
          return Err(CannotAffectRowTwice);
        }
        InsertPage(pages[p], Flatten(pages[..p]), old(monthly), old(nullPartner));
        FlattenSnoc(pages, p);
        p := p + 1;
      }
      FirstRepeatAt(pages, p);
      assert pages[..p] == pages;
      PagesFlatten(rows);
      return Ok(|rows|);
    }

    /** One statement of `execute_values`: a page without a repeated key, its rows upserted in order. */
    method InsertPage(page: seq<MonthlyRow>, ghost done: seq<MonthlyRow>,
                      ghost monthly0: map<MonthlyKey, Measures>, ghost null0: seq<MonthlyRow>)
      requires monthly == InsertAllIn(monthly0, done) && nullPartner == null0 + NullPartnerRows(done)
      modifies this
      ensures monthly == InsertAllIn(monthly0, done + page)
      ensures nullPartner == null0 + NullPartnerRows(done + page)
      ensures products == old(products) && baselines == old(baselines) && progress == old(progress)
    {
      var j := 0;
      assert done + page[..0] == done;
      while j < |page|
        invariant 0 <= j <= |page|
        invariant monthly == InsertAllIn(monthly0, done + page[..j])
        invariant nullPartner == null0 + NullPartnerRows(done + page[..j])
        invariant products == old(products) && baselines == old(baselines) && progress == old(progress)
      {
        InsertPageStep(monthly0, done, page, j);
        InsertMonthly(page[j]);
        j := j + 1;
      }
      assert page[..j] == page;
    }

    /** `upsert_baseline`: the row of `code` is replaced as a whole. */
    method UpsertBaseline(code: string, value: Option<real>, period: Option<string>)
      modifies this
      ensures baselines == old(baselines)[code := BaselineRow(value, period)]
      ensures products == old(products) && monthly == old(monthly) && nullPartner == old(nullPartner)
      ensures progress == old(progress)
    {
      baselines := baselines[code := BaselineRow(value, period)];
    }

    /** `upsert_progress`: the row of `code` is replaced as a whole. */
    method UpsertProgress(code: string, row: ProgressRow)
      modifies this
      ensures progress == old(progress)[code := row]
      ensures products == old(products) && monthly == old(monthly) && nullPartner == old(nullPartner)
      ensures baselines == old(baselines)
    {
      progress := progress[code := row];
    }
  }
}
