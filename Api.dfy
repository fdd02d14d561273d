/**
 * The HTTP layer's own logic: the admin guard, the CSV fallback of the product
 * listing (sector and capex filters, the stable descending sort, the limit) and
 * the seeding endpoint's write loop. `_parse_sectors` is `Normalize.ParseCsvSectors`:
 * the two functions have the same code.
 */
module Api {
  import opened Wrappers
  import opened Strings
  import opened Rows
  import opened Normalize
  import opened Db
  import Jobs

  /* ---------- the admin guard ---------- */

  datatype Access = Granted | Denied(status: int, detail: string)

  const BearerPrefix: string := "Bearer "

  /** `authorization.split(" ", 1)[1]`: the text after the first space (`None` where indexing raises). */
  function AfterFirstSpace(authorization: string): Option<string> {
    match FindFrom(authorization, " ", 0)
    case Some(i) => Some(authorization[i + 1..])
    case None => None
  }

  /**
   * `AdminGuard.__call__`: `adminKey` is `ADMIN_KEY` (`None` when unset) and
   * `authorization` the header. Access needs a non-empty key, a header starting
   * with "Bearer " and a token, stripped, equal to the key; anything else is 401.
   */
  function Guard(adminKey: Option<string>, authorization: Option<string>): (r: Access)
    ensures r.Granted? <==>
      && adminKey.Some? && adminKey.value != ""
      && authorization.Some? && StartsWith(authorization.value, BearerPrefix)
      && Strip(authorization.value[|BearerPrefix|..]) == adminKey.value
    ensures r.Denied? ==> r == Denied(401, "Unauthorized")
  {
    if adminKey.None? || adminKey.value == "" then Denied(401, "Unauthorized")
    else if authorization.None? || authorization.value == "" || !StartsWith(authorization.value, BearerPrefix) then
      Denied(401, "Unauthorized")
    else
      BearerToken(authorization.value);
      var token := Strip(AfterFirstSpace(authorization.value).value);
      if token != adminKey.value then Denied(401, "Unauthorized") else Granted
  }

  /** After "Bearer ", the first space is the one ending the prefix. */
  lemma BearerToken(authorization: string)
    requires StartsWith(authorization, BearerPrefix)
    ensures AfterFirstSpace(authorization) == Some(authorization[|BearerPrefix|..])
  {
    assert MatchAt(authorization, " ", 6);
    forall j | 0 <= j < 6 ensures !MatchAt(authorization, " ", j) {
      assert authorization[j] == BearerPrefix[j];
    }
  }

  /** A key with surrounding white space is never matched: the token is stripped. */
  lemma GuardRejectsPaddedKey(adminKey: string, authorization: Option<string>)
    requires adminKey != [] && (IsSpace(adminKey[0]) || IsSpace(adminKey[|adminKey| - 1]))
    ensures Guard(Some(adminKey), authorization).Denied?
  {
  }

  /** The header "Bearer <key>", with any white space around the key, is accepted for a trimmed non-empty key. */
  lemma GuardAcceptsBearer(adminKey: string, padding: string, trailing: string)
    requires adminKey != "" && !IsSpace(adminKey[0]) && !IsSpace(adminKey[|adminKey| - 1])
    requires forall i :: 0 <= i < |padding| ==> IsSpace(padding[i])
    requires forall i :: 0 <= i < |trailing| ==> IsSpace(trailing[i])
    ensures Guard(Some(adminKey), Some(BearerPrefix + padding + adminKey + trailing)) == Granted
  {
    var header := BearerPrefix + padding + adminKey + trailing;
    assert header[..|BearerPrefix|] == BearerPrefix;
    assert header[|BearerPrefix|..] == padding + adminKey + trailing;
    PaddedStrip(padding, adminKey, trailing);
  }

  lemma {:induction false} PaddedStrip(padding: string, s: string, trailing: string)
    requires s != "" && !IsSpace(s[0]) && !IsSpace(s[|s| - 1])
    requires forall i :: 0 <= i < |padding| ==> IsSpace(padding[i])
    requires forall i :: 0 <= i < |trailing| ==> IsSpace(trailing[i])
    ensures Strip(padding + s + trailing) == s
  {
    LStripPadding(padding, s + trailing);
    assert padding + s + trailing == padding + (s + trailing);
    RStripPadding(s, trailing);
  }

  lemma {:induction false} LStripPadding(padding: string, s: string)
    requires s != "" && !IsSpace(s[0])
    requires forall i :: 0 <= i < |padding| ==> IsSpace(padding[i])
    ensures LStrip(padding + s) == s
    decreases |padding|
  {
    if padding == [] {
      assert padding + s == s;
    } else {
      assert (padding + s)[1..] == padding[1..] + s;
      LStripPadding(padding[1..], s);
    }
  }

  lemma {:induction false} RStripPadding(s: string, trailing: string)
    requires s != "" && !IsSpace(s[|s| - 1])
    requires forall i :: 0 <= i < |trailing| ==> IsSpace(trailing[i])
    ensures RStrip(s + trailing) == s
    decreases |trailing|
  {
    if trailing == [] {
      assert s + trailing == s;
    } else {
      var front := trailing[..|trailing| - 1];
      assert (s + trailing)[..|s + trailing| - 1] == s + front;
      RStripPadding(s, front);
    }
  }

  /* ---------- the CSV fallback of the product listing ---------- */

  /** The listing's query parameters. */
  datatype ListQuery = ListQuery(
    sectors: Option<string>,
    combine: string,
    minCapex: Option<real>,
    maxCapex: Option<real>,
    sort: string,
    limit: int)

  /** One listed product. */
  datatype Item = Item(
    hsCode: string,
    title: string,
    sectors: seq<string>,
    capexMin: Option<real>,
    capexMax: Option<real>,
    value: Option<real>,
    reductionPct: Option<real>,
    opportunityScore: Option<real>)

  function LowerAll(xs: seq<string>): (r: seq<string>)
    ensures |r| == |xs| && forall i :: 0 <= i < |xs| ==> r[i] == Lower(xs[i])
  {
    seq(|xs|, i requires 0 <= i < |xs| => Lower(xs[i]))
  }

  /** The requested sectors: split on commas, trimmed, lower-cased, empty ones dropped. */
  function RequestedSectors(sectors: Option<string>): (r: seq<string>)
    ensures sectors.None? || sectors.value == "" ==> r == []
    ensures forall i :: 0 <= i < |r| ==> r[i] != ""
  {
    if sectors.None? || sectors.value == "" then []
    else
      SplitPartsLackSeparator(sectors.value, ",");
      SegmentsClean(Split(sectors.value, ","));
      LowerAll(Segments(Split(sectors.value, ",")))
  }

  /** The sector filter: an empty request keeps every row; "AND" (in any case) needs
      every requested sector, any other combine value one of them. */
  predicate SectorsMatch(requested: seq<string>, combine: string, rowSectors: seq<string>) {
    || requested == []
    || (Upper(combine) == "AND" && forall s :: s in requested ==> s in rowSectors)
    || (Upper(combine) != "AND" && exists s :: s in requested && s in rowSectors)
  }

  function FloatError(s: string): string {
    "could not convert string to float: '" + s + "'"
  }

  /** `float(row.get(key) or 0) if row.get(key) not in (None, "") else None`. */
  function CapexCell(row: CsvRow, key: string): (r: Result<Option<real>>)
    ensures !Rows.Truthy(Get(row, key)) ==> r == Ok(None)
    ensures Rows.Truthy(Get(row, key)) ==>
      (r.Ok? <==> ParseFloat(Get(row, key).value).Some?) &&
      (r.Ok? ==> r.value == ParseFloat(Get(row, key).value))
  {
    var v := Get(row, key);
    if v.None? || v.value == "" then Ok(None)
    else
      match ParseFloat(v.value)
      case None => Err(FloatError(v.value))
      case Some(x) => Ok(Some(x))
  }

  /** `float(row.get("seed_month_value") or 0)`. */
  function SeedValue(row: CsvRow): (r: Result<real>)
    ensures !Rows.Truthy(Get(row, "seed_month_value")) ==> r == Ok(0.0)
    ensures Rows.Truthy(Get(row, "seed_month_value")) ==>
      (r.Ok? <==> ParseFloat(Get(row, "seed_month_value").value).Some?) &&
      (r.Ok? ==> Some(r.value) == ParseFloat(Get(row, "seed_month_value").value))
  {
    var v := Get(row, "seed_month_value");
    if v.None? || v.value == "" then Ok(0.0)
    else
      match ParseFloat(v.value)
      case None => Err(FloatError(v.value))
      case Some(x) => Ok(x)
  }

  /** The capex filter: a row is left out when its maximum is below the requested
      minimum or its minimum above the requested maximum (unknown bounds pass). */
  predicate CapexExcluded(minCapex: Option<real>, maxCapex: Option<real>, capMin: Option<real>, capMax: Option<real>) {
    || (minCapex.Some? && capMax.Some? && capMax.value < minCapex.value)
    || (maxCapex.Some? && capMin.Some? && capMin.value > maxCapex.value)
  }

  /** `row[key].strip()`: a missing column raises `KeyError`, a missing cell `AttributeError`. */
  function StrippedCell(row: CsvRow, key: string): (r: Result<string>)
    ensures r.Ok? <==> key in row && row[key].Some?
    ensures r.Ok? ==> r.value == Strip(row[key].value)
  {
    if key !in row then Err("KeyError: '" + key + "'")
    else if row[key].None? then Err("'NoneType' object has no attribute 'strip'")
    else Ok(Strip(row[key].value))
  }

  /** `row.get(key, "").strip()`: a missing column reads as "", a missing cell raises. */
  function StrippedOrEmpty(row: CsvRow, key: string): (r: Result<string>)
    ensures r.Ok? <==> key !in row || row[key].Some?
    ensures r.Ok? ==> r.value == (if key in row then Strip(row[key].value) else "")
  {
    match GetOr(row, key, "")
    case None => Err("'NoneType' object has no attribute 'strip'")
    case Some(s) => Ok(Strip(s))
  }

  /** The row's sectors, lower-cased. */
  function RowSectors(row: CsvRow): seq<string> {
    LowerAll(ParseCsvSectors(GetOr(row, "sectors", "")))
  }

  /** One row of the fallback loop: `Ok(None)` when a filter skips it, an error where the row raises. */
  function ListRow(q: ListQuery, row: CsvRow): Result<Option<Item>> {
    var rowSectors := RowSectors(row);
    if !SectorsMatch(RequestedSectors(q.sectors), q.combine, rowSectors) then Ok(None)
    else
      match CapexCell(row, "capex_min")
      case Err(e) => Err(e)
      case Ok(capMin) =>
        match CapexCell(row, "capex_max")
        case Err(e) => Err(e)
        case Ok(capMax) =>
          if CapexExcluded(q.minCapex, q.maxCapex, capMin, capMax) then Ok(None)
          else ListedItem(row, rowSectors, capMin, capMax)
  }

  /** The item of a row that passed both filters. */
  function ListedItem(row: CsvRow, rowSectors: seq<string>, capMin: Option<real>, capMax: Option<real>): Result<Option<Item>> {
    match SeedValue(row)
    case Err(e) => Err(e)
    case Ok(seed) =>
      match StrippedCell(row, "hs_code")
      case Err(e) => Err(e)
      case Ok(code) =>
        match StrippedOrEmpty(row, "title")
        case Err(e) => Err(e)
        case Ok(title) =>
          Ok(Some(Item(code, title, rowSectors, capMin, capMax,
                       if seed != 0.0 then Some(seed * 12.0) else None, None, None)))
  }

  /** `ListRow` for a fixed query, as the loop applies it. */
  function ListRowOf(q: ListQuery): CsvRow -> Result<Option<Item>> {
    row => ListRow(q, row)
  }

  /**
   * The filters: a row whose sectors do not match is skipped before anything is
   * parsed; one whose capex cells parse is skipped iff the capex filter excludes
   * it; and only an unparsable capex cell, seed value, or a missing code or title
   * cell raises.
   */
  lemma ListRowFilters(q: ListQuery, row: CsvRow)
    ensures !SectorsMatch(RequestedSectors(q.sectors), q.combine, RowSectors(row)) ==> ListRow(q, row) == Ok(None)
    ensures (SectorsMatch(RequestedSectors(q.sectors), q.combine, RowSectors(row)) &&
             CapexCell(row, "capex_min").Ok? && CapexCell(row, "capex_max").Ok?) ==>
      (ListRow(q, row) == Ok(None) <==>
        CapexExcluded(q.minCapex, q.maxCapex, CapexCell(row, "capex_min").value, CapexCell(row, "capex_max").value))
    ensures ListRow(q, row).Err? ==>
      || CapexCell(row, "capex_min").Err? || CapexCell(row, "capex_max").Err?
      || SeedValue(row).Err? || StrippedCell(row, "hs_code").Err? || StrippedOrEmpty(row, "title").Err?
  {
  }

  /**
   * A listed item carries the row's trimmed code and title, its lower-cased
   * sectors and its capex cells; its 12-month value is twelve times the seed
   * value, absent for a zero seed; progress and opportunity are unknown.
   */
  lemma ListRowItem(q: ListQuery, row: CsvRow)
    requires ListRow(q, row).Ok? && ListRow(q, row).value.Some?
    ensures var item := ListRow(q, row).value.value;
      var seed := SeedValue(row);
      && seed.Ok?
      && item.value == (if seed.value != 0.0 then Some(12.0 * seed.value) else None)
      && item.sectors == RowSectors(row)
      && CapexCell(row, "capex_min") == Ok(item.capexMin)
      && CapexCell(row, "capex_max") == Ok(item.capexMax)
      && "hs_code" in row && row["hs_code"].Some? && item.hsCode == Strip(row["hs_code"].value)
      && item.reductionPct.None? && item.opportunityScore.None?
  {
  }

  /** The sort key of the chosen order; an unknown order sorts by opportunity. */
  function SortKey(sort: string): Item -> real {
    var k := Lower(sort);
    if k == "value" then (x: Item) => OrZero(x.value)
    else if k == "progress" then (x: Item) => OrZero(x.reductionPct)
    else (x: Item) => OrZero(x.opportunityScore)
  }

  /** The listing response. */
  datatype Listing = Listing(items: seq<Item>, count: nat, source: string)

  /** `_fallback_from_csv` over the CSV rows. */
  function ListFallback(q: ListQuery, rows: seq<CsvRow>): Result<Listing> {
    match Gather(ParseAll(ListRowOf(q), rows))
    case Err(e) => Err(e)
    case Ok(items) =>
      var listed := SliceTo(SortDesc(items, SortKey(q.sort)), q.limit);
      Ok(Listing(listed, |listed|, "seed"))
  }

  /**
   * The fallback listing fails iff a row raises; otherwise it lists the kept rows'
   * items, highest key first, cut to `limit` (a positive limit gives
   * `min(limit, kept)` items), with `count` the number of items listed.
   */
  lemma ListFallbackSpec(q: ListQuery, rows: seq<CsvRow>)
    ensures ListFallback(q, rows).Ok? <==> forall i :: 0 <= i < |rows| ==> ListRow(q, rows[i]).Ok?
    ensures ListFallback(q, rows).Ok? ==>
      var kept := Gather(ParseAll(ListRowOf(q), rows)).value;
      var listing := ListFallback(q, rows).value;
      var key := SortKey(q.sort);
      && listing.count == |listing.items| <= |kept|
      && (q.limit >= 0 ==> |listing.items| == if q.limit <= |kept| then q.limit else |kept|)
      && listing.items == SortDesc(kept, key)[..|listing.items|]
      && SortedDesc(listing.items, key)
      && listing.source == "seed"
      && (forall x :: x in kept <==> exists i :: 0 <= i < |rows| && ListRow(q, rows[i]) == Ok(Some(x)))
  {
    var parsed := ParseAll(ListRowOf(q), rows);
    GatherSpec(parsed);
    if Gather(parsed).Ok? {
      var kept := Gather(parsed).value;
      var key := SortKey(q.sort);
      SortDescSpec(kept, key);
      var listing := ListFallback(q, rows).value;
      assert listing.items == SortDesc(kept, key)[..|listing.items|];
      forall i, j | 0 <= i < j < |listing.items| ensures key(listing.items[i]) >= key(listing.items[j]) {
        assert listing.items[i] == SortDesc(kept, key)[i] && listing.items[j] == SortDesc(kept, key)[j];
      }
    }
  }

  /** Sorting by progress or opportunity keeps the file order: every item's key is 0. */
  lemma ListFallbackUnsorted(q: ListQuery, rows: seq<CsvRow>)
    requires Lower(q.sort) != "value"
    requires ListFallback(q, rows).Ok?
    ensures ListFallback(q, rows).value.items == SliceTo(Gather(ParseAll(ListRowOf(q), rows)).value, q.limit)
  {
    var parsed := ParseAll(ListRowOf(q), rows);
    var kept := Gather(parsed).value;
    var key := SortKey(q.sort);
    GatherSpec(parsed);
    forall i | 0 <= i < |kept| ensures key(kept[i]) == 0.0 {
      assert kept[i] in kept;
      var j :| 0 <= j < |parsed| && parsed[j] == Ok(Some(kept[i]));
      assert ListRow(q, rows[j]) == Ok(Some(kept[i]));
      ListRowItem(q, rows[j]);
    }
    SortDescConstant(kept, key, 0.0);
  }

  /** The fallback loop: every row parsed and filtered, then the sort and the limit. */
  method ListFallbackFrom(q: ListQuery, rows: seq<CsvRow>) returns (r: Result<Listing>)
    ensures r == ListFallback(q, rows)
  {
    var items := GatherFrom(ListRowOf(q), rows);
    if items.Err? {
      return Err(items.error);
    }
    var listed := SliceTo(SortDesc(items.value, SortKey(q.sort)), q.limit);
    return Ok(Listing(listed, |listed|, "seed"));
  }

  /* ---------- the stable descending sort ---------- */

  /** `x` placed after the items with a larger key and before the others. */
  function InsertDesc<T>(x: T, sorted: seq<T>, key: T -> real): (r: seq<T>)
    ensures multiset(r) == multiset(sorted) + multiset{x}
    ensures |r| == |sorted| + 1
  {
    if sorted == [] || key(sorted[0]) <= key(x) then [x] + sorted
    else
      assert sorted == [sorted[0]] + sorted[1..];
      [sorted[0]] + InsertDesc(x, sorted[1..], key)
  }

  /** `list.sort(key=key, reverse=True)`: a stable sort, largest key first. */
  function SortDesc<T>(xs: seq<T>, key: T -> real): (r: seq<T>)
    ensures multiset(r) == multiset(xs)
    ensures |r| == |xs|
  {
    if xs == [] then []
    else
      assert xs == [xs[0]] + xs[1..];
      InsertDesc(xs[0], SortDesc(xs[1..], key), key)
  }

  predicate SortedDesc<T>(xs: seq<T>, key: T -> real) {
    forall i, j :: 0 <= i < j < |xs| ==> key(xs[i]) >= key(xs[j])
  }

  /** The items of `xs` whose key is `v`, in order. */
  function WithKey<T>(xs: seq<T>, key: T -> real, v: real): seq<T> {
    if xs == [] then []
    else (if key(xs[0]) == v then [xs[0]] else []) + WithKey(xs[1..], key, v)
  }

  /** No key of `xs` exceeds `b`. */
  predicate AtMost<T>(xs: seq<T>, key: T -> real, b: real) {
    forall i :: 0 <= i < |xs| ==> key(xs[i]) <= b
  }

  lemma SortedCons<T>(x: T, xs: seq<T>, key: T -> real)
    ensures SortedDesc([x] + xs, key) <==> SortedDesc(xs, key) && AtMost(xs, key, key(x))
  {
    var r := [x] + xs;
    if SortedDesc(xs, key) && AtMost(xs, key, key(x)) {
      forall i, j | 0 <= i < j < |r| ensures key(r[i]) >= key(r[j]) {
        assert r[j] == xs[j - 1];
        if i > 0 {
          assert r[i] == xs[i - 1];
        }
      }
    }
    if SortedDesc(r, key) {
      forall i | 0 <= i < |xs| ensures key(xs[i]) <= key(x) {
        assert r[0] == x && r[i + 1] == xs[i];
      }
      forall i, j | 0 <= i < j < |xs| ensures key(xs[i]) >= key(xs[j]) {
        assert r[i + 1] == xs[i] && r[j + 1] == xs[j];
      }
    }
  }

  lemma {:induction false} InsertDescAtMost<T>(x: T, sorted: seq<T>, key: T -> real, b: real)
    requires AtMost(sorted, key, b) && key(x) <= b
    ensures AtMost(InsertDesc(x, sorted, key), key, b)
    decreases |sorted|
  {
    if !(sorted == [] || key(sorted[0]) <= key(x)) {
      InsertDescAtMost(x, sorted[1..], key, b);
      var r := InsertDesc(x, sorted, key);
      assert r == [sorted[0]] + InsertDesc(x, sorted[1..], key);
      forall i | 0 <= i < |r| ensures key(r[i]) <= b {
        if i > 0 {
          assert r[i] == InsertDesc(x, sorted[1..], key)[i - 1];
        }
      }
    }
  }

  lemma {:induction false} InsertDescSorted<T>(x: T, sorted: seq<T>, key: T -> real)
    requires SortedDesc(sorted, key)
    ensures SortedDesc(InsertDesc(x, sorted, key), key)
    decreases |sorted|
  {
    if sorted == [] || key(sorted[0]) <= key(x) {
      SortedCons(x, sorted, key);
    } else {
      assert sorted == [sorted[0]] + sorted[1..];
      SortedCons(sorted[0], sorted[1..], key);
      InsertDescSorted(x, sorted[1..], key);
      InsertDescAtMost(x, sorted[1..], key, key(sorted[0]));
      SortedCons(sorted[0], InsertDesc(x, sorted[1..], key), key);
    }
  }

  lemma WithKeyCons<T>(y: T, ys: seq<T>, key: T -> real, v: real)
    ensures WithKey([y] + ys, key, v) == (if key(y) == v then [y] else []) + WithKey(ys, key, v)
  {
    assert ([y] + ys)[1..] == ys;
  }

  lemma {:induction false} InsertDescStable<T>(x: T, sorted: seq<T>, key: T -> real, v: real)
    ensures WithKey(InsertDesc(x, sorted, key), key, v) == (if key(x) == v then [x] else []) + WithKey(sorted, key, v)
  {
    if key(x) == v {
      InsertDescStableSame(x, sorted, key);
    } else {
      InsertDescStableOther(x, sorted, key, v);
    }
  }

  /** The inserted item goes before every item of its key already there. */
  lemma {:induction false} InsertDescStableSame<T>(x: T, sorted: seq<T>, key: T -> real)
    ensures WithKey(InsertDesc(x, sorted, key), key, key(x)) == [x] + WithKey(sorted, key, key(x))
    decreases |sorted|
  {
    var v := key(x);
    if sorted == [] || key(sorted[0]) <= key(x) {
      assert InsertDesc(x, sorted, key) == [x] + sorted;
      WithKeyCons(x, sorted, key, v);
    } else {
      var rest := InsertDesc(x, sorted[1..], key);
      assert InsertDesc(x, sorted, key) == [sorted[0]] + rest;
      InsertDescStableSame(x, sorted[1..], key);
      WithKeyCons(sorted[0], rest, key, v);
      WithKeyCons(sorted[0], sorted[1..], key, v);
      assert [sorted[0]] + sorted[1..] == sorted;
    }
  }

  /** Inserting an item of another key leaves the items of key `v` as they were. */
  lemma {:induction false} InsertDescStableOther<T>(x: T, sorted: seq<T>, key: T -> real, v: real)
    requires key(x) != v
    ensures WithKey(InsertDesc(x, sorted, key), key, v) == WithKey(sorted, key, v)
    decreases |sorted|
  {
    if sorted == [] || key(sorted[0]) <= key(x) {
      assert InsertDesc(x, sorted, key) == [x] + sorted;
      WithKeyCons(x, sorted, key, v);
    } else {
      var rest := InsertDesc(x, sorted[1..], key);
      assert InsertDesc(x, sorted, key) == [sorted[0]] + rest;
      InsertDescStableOther(x, sorted[1..], key, v);
      WithKeyCons(sorted[0], rest, key, v);
      WithKeyCons(sorted[0], sorted[1..], key, v);
      assert [sorted[0]] + sorted[1..] == sorted;
    }
  }

  /**
   * The sort orders by descending key and is stable: the items sharing a key
   * keep their input order (and the result is a permutation of the input).
   */
  lemma {:induction false} SortDescSpec<T>(xs: seq<T>, key: T -> real)
    ensures SortedDesc(SortDesc(xs, key), key)
    ensures forall v :: WithKey(SortDesc(xs, key), key, v) == WithKey(xs, key, v)
    ensures multiset(SortDesc(xs, key)) == multiset(xs)
  {
    if xs != [] {
      SortDescSpec(xs[1..], key);
      InsertDescSorted(xs[0], SortDesc(xs[1..], key), key);
      forall v ensures WithKey(SortDesc(xs, key), key, v) == WithKey(xs, key, v) {
        InsertDescStable(xs[0], SortDesc(xs[1..], key), key, v);
      }
    }
  }

  lemma {:induction false} WithKeyAll<T>(xs: seq<T>, key: T -> real, v: real)
    requires forall i :: 0 <= i < |xs| ==> key(xs[i]) == v
    ensures WithKey(xs, key, v) == xs
  {
    if xs != [] {
      WithKeyAll(xs[1..], key, v);
      assert xs == [xs[0]] + xs[1..];
    }
  }

  /** When every key is the same the sort changes nothing. */
  lemma SortDescConstant<T>(xs: seq<T>, key: T -> real, v: real)
    requires forall i :: 0 <= i < |xs| ==> key(xs[i]) == v
    ensures SortDesc(xs, key) == xs
  {
    SortDescSpec(xs, key);
    var r := SortDesc(xs, key);
    forall i | 0 <= i < |r| ensures key(r[i]) == v {
      assert r[i] in multiset(xs);
      var j :| 0 <= j < |xs| && xs[j] == r[i];
    }
    WithKeyAll(xs, key, v);
    WithKeyAll(r, key, v);
  }

  /* ---------- seeding ---------- */

  /** A parsed seed row: the product it upserts, its monthly seed value and partner. */
  datatype SeedRow = SeedRow(input: ProductInput, seed: real, partner: string)

  const SeedYear: int := 2024

  /** One row of `seed_database`, parsed; any raise aborts the whole seeding. */
  function SeedItem(row: CsvRow): (r: Result<Option<SeedRow>>)
    ensures r.Ok? ==> r.value.Some?
  {
    match StrippedCell(row, "hs_code")
    case Err(e) => Err(e)
    case Ok(code) =>
      match CapexCell(row, "capex_min")
      case Err(e) => Err(e)
      case Ok(capMin) =>
        match CapexCell(row, "capex_max")
        case Err(e) => Err(e)
        case Ok(capMax) =>
          match StrippedOrEmpty(row, "title")
          case Err(e) => Err(e)
          case Ok(title) =>
            match StrippedOrEmpty(row, "description")
            case Err(e) => Err(e)
            case Ok(description) =>
              match SeedValue(row)
              case Err(e) => Err(e)
              case Ok(seed) =>
                var partner := if Rows.Truthy(Get(row, "top_country")) then Get(row, "top_country").value else "Unknown";
                var sectors := ParseCsvSectors(GetOr(row, "sectors", ""));
                Ok(Some(SeedRow(ProductInput(code, title, description, sectors, capMin, capMax), seed, partner)))
  }

  /** The twelve monthly rows of a seed row: every month of 2024 at the seed value. */
  function SeedMonths(d: SeedRow): (r: seq<MonthlyRow>)
    ensures |r| == 12
  {
    seq(12, k requires 0 <= k < 12 =>
      MonthlyRow(d.input.hsCode, SeedYear, k + 1, Some(d.seed), None, None, None, Some(d.partner)))
  }

  /** Every monthly row of the seeding, row by row. */
  function SeedMonthly(ds: seq<SeedRow>): seq<MonthlyRow> {
    if ds == [] then [] else SeedMonthly(ds[..|ds| - 1]) + SeedMonths(ds[|ds| - 1])
  }

  /** The products of the seeding, in row order. */
  function SeedInputs(ds: seq<SeedRow>): (r: seq<ProductInput>)
    ensures |r| == |ds| && forall i :: 0 <= i < |ds| ==> r[i] == ds[i].input
  {
    seq(|ds|, i requires 0 <= i < |ds| => ds[i].input)
  }

  /** Every product upserted in order: unlike the loaders, the seeding upserts each row. */
  function UpsertAllIn(products: map<string, Product>, inputs: seq<ProductInput>): map<string, Product> {
    if inputs == [] then products
    else UpsertProductIn(UpsertAllIn(products, inputs[..|inputs| - 1]), inputs[|inputs| - 1])
  }

  /**
   * Row `j` of the seeding's monthly rows is month `j % 12 + 1` of 2024 for seed
   * row `j / 12`, at its seed value and with its partner; so there are twelve
   * rows per product, none with a NULL partner.
   */
  lemma {:induction false} SeedMonthlySpec(ds: seq<SeedRow>)
    ensures |SeedMonthly(ds)| == 12 * |ds|
    ensures forall j :: 0 <= j < |SeedMonthly(ds)| ==>
      var row := SeedMonthly(ds)[j];
      var d := ds[j / 12];
      && row.hsCode == d.input.hsCode && row.year == SeedYear && row.month == j % 12 + 1
      && row.valueUsd == Some(d.seed) && row.partner == Some(d.partner)
      && row.valueInr.None? && row.fxRate.None? && row.qty.None?
  {
    if ds != [] {
      var front := ds[..|ds| - 1];
      SeedMonthlySpec(front);
      var rows := SeedMonthly(ds);
      forall j | 0 <= j < |rows|
        ensures var row := rows[j]; var d := ds[j / 12];
          && row.hsCode == d.input.hsCode && row.year == SeedYear && row.month == j % 12 + 1
          && row.valueUsd == Some(d.seed) && row.partner == Some(d.partner)
          && row.valueInr.None? && row.fxRate.None? && row.qty.None?
      {
        if j < 12 * |front| {
          assert rows[j] == SeedMonthly(front)[j];
          assert ds[j / 12] == front[j / 12];
        } else {
          var k := j - 12 * |front|;
          assert rows[j] == SeedMonths(ds[|ds| - 1])[k];
          assert j / 12 == |front| && j % 12 == k;
        }
      }
    }
  }

  /** The seeding writes no row with a NULL partner. */
  lemma {:induction false} SeedMonthlyKeyed(ds: seq<SeedRow>)
    ensures NullPartnerRows(SeedMonthly(ds)) == []
  {
    SeedMonthlySpec(ds);
    NullPartnerRowsKeyed(SeedMonthly(ds));
  }

  lemma {:induction false} NullPartnerRowsKeyed(rows: seq<MonthlyRow>)
    requires forall j :: 0 <= j < |rows| ==> rows[j].partner.Some?
    ensures NullPartnerRows(rows) == []
  {
    if rows != [] {
      NullPartnerRowsKeyed(rows[..|rows| - 1]);
    }
  }

  /**
   * `codes` is the jobs' product query, run after the writes: when every row
   * parses, it lists the products table as the rows left it.
   */
  predicate ListsSeeded(codes: seq<string>, products: map<string, Product>,
                        parseRow: CsvRow -> Result<Option<SeedRow>>, rows: seq<CsvRow>) {
    var parsed := Gather(ParseAll(parseRow, rows));
    parsed.Ok? ==> ListsProducts(codes, UpsertAllIn(products, SeedInputs(parsed.value)))
  }

  /** The response of the seeding endpoint. */
  datatype SeedResponse =
    | NotSeeded
    | Seeded(products: nat, monthlyRows: nat, baselineProcessed: nat, withBaseline: nat,
             progressProcessed: nat, source: string)

  /**
   * `seed_database`: nothing to seed for an empty file. Otherwise it fails iff a
   * row raises or the progress job does, and then every write is rolled back;
   * on success every row is a product with its twelve monthly rows, and the
   * baseline and progress jobs processed every code, over the tables as written.
   */
  method SeedDatabase(db: Database, rows: seq<CsvRow>, codes: seq<string>, monthlyOf: string -> seq<Jobs.MonthTotal>,
                      shares: Jobs.SharesQuery, log1p: real -> real) returns (r: Result<SeedResponse>)
    requires ListsSeeded(codes, db.products, SeedItem, rows)
    modifies db
    ensures rows == [] ==> r == Ok(NotSeeded)
    ensures r.Err? || rows == [] ==>
      && db.products == old(db.products) && db.monthly == old(db.monthly) && db.nullPartner == old(db.nullPartner)
      && db.baselines == old(db.baselines) && db.progress == old(db.progress)
    ensures rows != [] ==>
      var parsed := Gather(ParseAll(SeedItem, rows));
      var ds := if parsed.Ok? then parsed.value else [];
      var products := UpsertAllIn(old(db.products), SeedInputs(ds));
      var baselines := Jobs.StoreBaselines(old(db.baselines), Jobs.BaselinesOf(codes, monthlyOf));
      var progress := Jobs.ProgressOf(codes, monthlyOf, baselines, products, shares, log1p);
      && (parsed.Err? ==> r == Err(parsed.error))
      && (parsed.Ok? && progress.Err? ==> r == Err(progress.error))
      && (parsed.Ok? && progress.Ok? ==>
        && r == Ok(Seeded(|rows|, 12 * |rows|, |codes|, Jobs.CountWithBaseline(Jobs.BaselinesOf(codes, monthlyOf)), |codes|, "seed"))
        && db.products == products && |codes| == |products|
        && db.monthly == InsertAllIn(old(db.monthly), SeedMonthly(ds))
        && db.nullPartner == old(db.nullPartner)
        && db.baselines == baselines
        && db.progress == Jobs.StoreProgress(old(db.progress), codes, progress.value, baselines))
  {
    if rows == [] {
      return Ok(NotSeeded);
    }
    var products0, monthly0, null0, baselines0, progress0 := db.products, db.monthly, db.nullPartner, db.baselines, db.progress;
    r := SeedTransaction(db, SeedItem, rows, codes, monthlyOf, shares, log1p);
    if r.Err? {
      db.products, db.monthly, db.nullPartner, db.baselines, db.progress := products0, monthly0, null0, baselines0, progress0;
    }
  }

  /**
   * The transaction of `seed_database`: the write loop, then the baseline and
   * progress jobs. `parseRow` is `SeedItem` (see `WriteSeed`).
   */
  method SeedTransaction(db: Database, parseRow: CsvRow -> Result<Option<SeedRow>>, rows: seq<CsvRow>,
                         codes: seq<string>, monthlyOf: string -> seq<Jobs.MonthTotal>,
                         shares: Jobs.SharesQuery, log1p: real -> real) returns (r: Result<SeedResponse>)
    requires forall row :: parseRow(row).Ok? ==> parseRow(row).value.Some?
    requires ListsSeeded(codes, db.products, parseRow, rows)
    modifies db
    ensures var parsed := Gather(ParseAll(parseRow, rows));
      var ds := if parsed.Ok? then parsed.value else [];
      var products := UpsertAllIn(old(db.products), SeedInputs(ds));
      var baselines := Jobs.StoreBaselines(old(db.baselines), Jobs.BaselinesOf(codes, monthlyOf));
      var progress := Jobs.ProgressOf(codes, monthlyOf, baselines, products, shares, log1p);
      && (parsed.Err? ==> r == Err(parsed.error))
      && (parsed.Ok? && progress.Err? ==> r == Err(progress.error))
      && (parsed.Ok? && progress.Ok? ==>
        && r == Ok(Seeded(|rows|, 12 * |rows|, |codes|, Jobs.CountWithBaseline(Jobs.BaselinesOf(codes, monthlyOf)), |codes|, "seed"))
        && db.products == products && |codes| == |products|
        && db.monthly == InsertAllIn(old(db.monthly), SeedMonthly(ds))
        && db.nullPartner == old(db.nullPartner)
        && db.baselines == baselines
        && db.progress == Jobs.StoreProgress(old(db.progress), codes, progress.value, baselines))
  {
    var written := WriteSeed(db, parseRow, rows);
    if written.Err? {
      return Err(written.error);
    }
    var processed, withBaseline := Jobs.RecomputeBaseline(db, codes, monthlyOf);
    var progress := Jobs.RecomputeProgress(db, codes, monthlyOf, shares, log1p);
    if progress.Err? {
      return Err(progress.error);
    }
    return Ok(Seeded(written.value.0, written.value.1, processed, withBaseline, progress.value, "seed"));
  }

  /**
   * The write loop of `seed_database`: the product and monthly counters and the
   * writes made. `parseRow` is `SeedItem`, passed as a value so that the loop
   * reasons about its contract and not its body; a row is never skipped.
   */
  method WriteSeed(db: Database, parseRow: CsvRow -> Result<Option<SeedRow>>, rows: seq<CsvRow>) returns (r: Result<(nat, nat)>)
    requires forall row :: parseRow(row).Ok? ==> parseRow(row).value.Some?
    modifies db
    ensures r.Ok? <==> Gather(ParseAll(parseRow, rows)).Ok?
    ensures r.Err? ==> r.error == Gather(ParseAll(parseRow, rows)).error
    ensures r.Ok? ==>
      var ds := Gather(ParseAll(parseRow, rows)).value;
      && |ds| == |rows| && r.value == (|rows|, 12 * |rows|)
      && db.products == UpsertAllIn(old(db.products), SeedInputs(ds))
      && db.monthly == InsertAllIn(old(db.monthly), SeedMonthly(ds))
      && db.nullPartner == old(db.nullPartner)
    ensures db.baselines == old(db.baselines) && db.progress == old(db.progress)
  {
    ghost var parsed := ParseAll(parseRow, rows);
    ghost var products0, monthly0 := db.products, db.monthly;
    var ds: seq<SeedRow> := [];
    var productCount := 0;
    var monthlyCount := 0;
    while productCount < |rows|
      invariant 0 <= productCount <= |rows|
      invariant Gather(parsed[..productCount]) == Ok(ds) && |ds| == productCount
      invariant monthlyCount == 12 * productCount
      invariant db.products == UpsertAllIn(products0, SeedInputs(ds))
      invariant db.monthly == InsertAllIn(monthly0, SeedMonthly(ds))
      invariant db.nullPartner == old(db.nullPartner)
      invariant db.baselines == old(db.baselines) && db.progress == old(db.progress)
    {
      var item := parseRow(rows[productCount]);
      if item.Err? {
        GatherFailsAt(parsed, productCount);
        return Err(item.error);
      }
      var d := item.value.value;
      GatherKeepsNext(parsed, productCount, ds, d);
      WriteSeedNext(db, d, products0, monthly0, ds);
      ds := ds + [d];
      productCount := productCount + 1;
      monthlyCount := monthlyCount + 12;
    }
    assert parsed[..productCount] == parsed;
    assert Gather(parsed) == Ok(ds);
    return Ok((productCount, monthlyCount));
  }

  /** One more seed row written over the tables the rows `ds` left. */
  method WriteSeedNext(db: Database, d: SeedRow, ghost products0: map<string, Product>,
                       ghost monthly0: map<MonthlyKey, Measures>, ghost ds: seq<SeedRow>)
    requires db.products == UpsertAllIn(products0, SeedInputs(ds))
    requires db.monthly == InsertAllIn(monthly0, SeedMonthly(ds))
    modifies db
    ensures db.products == UpsertAllIn(products0, SeedInputs(ds + [d]))
    ensures db.monthly == InsertAllIn(monthly0, SeedMonthly(ds + [d]))
    ensures db.nullPartner == old(db.nullPartner) && db.baselines == old(db.baselines) && db.progress == old(db.progress)
  {
    SeedStep(products0, monthly0, ds, d);
    WriteSeedRow(db, d);
  }

  /** The tables after one more seed row, from the tables before it. */
  lemma SeedStep(products0: map<string, Product>, monthly0: map<MonthlyKey, Measures>, ds: seq<SeedRow>, d: SeedRow)
    ensures UpsertAllIn(products0, SeedInputs(ds + [d])) == UpsertProductIn(UpsertAllIn(products0, SeedInputs(ds)), d.input)
    ensures InsertAllIn(monthly0, SeedMonthly(ds + [d])) == InsertAllIn(InsertAllIn(monthly0, SeedMonthly(ds)), SeedMonths(d))
  {
    assert (ds + [d])[..|ds|] == ds;
    assert SeedInputs(ds + [d])[..|ds|] == SeedInputs(ds);
    InsertAllAppend(monthly0, SeedMonthly(ds), SeedMonths(d));
  }

  lemma {:induction false} InsertAllAppend(monthly: map<MonthlyKey, Measures>, a: seq<MonthlyRow>, b: seq<MonthlyRow>)
    ensures InsertAllIn(monthly, a + b) == InsertAllIn(InsertAllIn(monthly, a), b)
    decreases |b|
  {
    if b == [] {
      assert a + b == a;
    } else {
      assert (a + b)[..|a + b| - 1] == a + b[..|b| - 1];
      InsertAllAppend(monthly, a, b[..|b| - 1]);
    }
  }

  /** One row of `seed_database`'s outer loop: its product upserted, then its twelve months. */
  method WriteSeedRow(db: Database, d: SeedRow)
    modifies db
    ensures db.products == UpsertProductIn(old(db.products), d.input)
    ensures db.monthly == InsertAllIn(old(db.monthly), SeedMonths(d))
    ensures db.nullPartner == old(db.nullPartner) && db.baselines == old(db.baselines) && db.progress == old(db.progress)
  {
    db.UpsertProduct(d.input);
    WriteMonths(db, d);
  }

  /** The inner loop of `seed_database`: months 1..12 of 2024 at the seed value. */
  method WriteMonths(db: Database, d: SeedRow)
    modifies db
    ensures db.monthly == InsertAllIn(old(db.monthly), SeedMonths(d))
    ensures db.nullPartner == old(db.nullPartner)
    ensures db.products == old(db.products) && db.baselines == old(db.baselines) && db.progress == old(db.progress)
  {
    var months := SeedMonths(d);
    var month := 1;
    while month <= 12
      invariant 1 <= month <= 13
      invariant db.monthly == InsertAllIn(old(db.monthly), months[..month - 1])
      invariant db.nullPartner == old(db.nullPartner)
      invariant db.products == old(db.products) && db.baselines == old(db.baselines) && db.progress == old(db.progress)
    {
      assert months[..month][..month - 1] == months[..month - 1];
      db.InsertMonthly(MonthlyRow(d.input.hsCode, SeedYear, month, Some(d.seed), None, None, None, Some(d.partner)));
      month := month + 1;
    }
    assert months[..12] == months;
  }

  /** Seeding fails iff some row raises; the seeded product count is the number of rows, and
      there are twelve monthly rows per product. */
  lemma SeedItemsSpec(rows: seq<CsvRow>)
    ensures Gather(ParseAll(SeedItem, rows)).Ok? <==> forall i :: 0 <= i < |rows| ==> SeedItem(rows[i]).Ok?
    ensures Gather(ParseAll(SeedItem, rows)).Ok? ==>
      var ds := Gather(ParseAll(SeedItem, rows)).value;
      && |ds| == |rows| && (forall i :: 0 <= i < |rows| ==> SeedItem(rows[i]) == Ok(Some(ds[i])))
      && |SeedMonthly(ds)| == 12 * |ds|
  {
    var parsed := ParseAll(SeedItem, rows);
    GatherSpec(parsed);
    if Gather(parsed).Ok? {
      GatherAllKept(parsed);
      SeedMonthlySpec(Gather(parsed).value);
    }
  }
}
