# Import-substitution tracker: a Dafny model of its ingestion and analytics core

The tracker collects India's monthly import values per HS product code. It has two loaders:

- one for the UN Comtrade preview API;
- one for the DGCI&S CSV export, which converts INR and USD with a monthly rate table.

Records are stored in a product table and a monthly table. Two recompute jobs follow:

- For each product, the baseline job finds a 12-month baseline window.
- The progress job compares the last 12 months against that baseline. It computes the reduction, the partner concentration (the Herfindahl–Hirschman index) and its shift, and an opportunity score. The score is a log-scaled, min-max-normalised current value, damped by concentration and weighted by a per-sector technical-feasibility table.

The HTTP layer guards the admin endpoints with a bearer key. It also serves a product listing from the seed CSV when no database is configured, and it can seed the database from that CSV.

The model has one module per source file, plus three support modules:

| module | models |
|---|---|
| `Wrappers` | `Option`/`Result`. `Gather` collects per-row parse results: it keeps the `Some` values in order and stops at the first error. |
| `Strings` | The Python string built-ins the code relies on: `strip`, `lower`/`upper`, `startswith`, `split`, `str.join`, `int()`, `float()`, zero-padded formatting, and slicing with a possibly negative bound. |
| `Rows` | A `csv.DictReader` row as a map from column name to an optional cell. |
| `Normalize` | `server/etl/normalize.py`. |
| `Util` | `server/util.py`. |
| `Forex` | `server/forex.py`. The `RateService` class holds the `lru_cache` state. |
| `Db` | `server/db.py`. The class `Database` holds the five tables as maps keyed by their natural keys. Rows whose partner is SQL NULL go in a separate sequence, because Postgres never lets NULL keys conflict. |
| `Jobs` | `server/jobs.py`. |
| `Dgcis` | `server/etl/dgcis.py`. |
| `Comtrade` | `server/etl/comtrade.py`. |
| `Api` | `server/main.py`. |

Abstractions:

- **Money and `math.log1p`.** Money is `real`. `math.log1p` is a parameter `log1p: real -> real`. Where a property needs it, the lemma requires the parameter to be strictly increasing with `log1p(0) == 0` (`Util.LogLike`).
- **SELECT results** are given as parameters:
  - `monthlyOf(code)` gives the monthly totals, in ascending order;
  - `shares(code, start, end)` gives the partner totals, which `Db.PartnerShares` turns into shares;
  - the newest-first series is an input sequence.
- **Files.** File contents are input values: a header plus rows, with `None` when the file does not exist.
- **The environment** is a map.
- **The HTTP server behind `urlopen`** is a function from (query, attempt number) to what that attempt meets.
- **`time.sleep` calls** come back as the list of sleeps the request made.

Where the loops of the source are loops, the model has methods with loop invariants. Each is proved equal to a specification function, and the lemmas are proved about that function:

- `EnsureContiguous`, `ComputeBaseline`, `RecomputeBaseline` and `RecomputeProgress` (with its three loops);
- `TechFeasibilityFor` and `InferSectors`;
- `LoadCsvFrom` and both loaders' `Load`;
- `ParseDatasetFrom`, `Request`, `LoadRatesFrom` and `BulkInsertMonthly`;
- `WriteSeed`/`WriteMonths` and `ListFallbackFrom`.

Operations that change the tables are methods of `Db.Database`, or methods that modify it. Each states the new state of every table. The one exception is `Api.SeedTransaction` (with `Api.WriteSeed`) after an error: it leaves partial writes, which `Api.SeedDatabase` rolls back.

## Model

| member | source | states |
|---|---|---|
| Jobs.MonthKeyOrder | server/jobs.py:24-25 | For months in 1..12, `12y + m - 1` is injective. It steps by exactly one from (y, m) to (y, m+1) and from (y, 12) to (y+1, 1). |
| Jobs.EnsureContiguous | server/jobs.py:28-35 | The early-return loop returns exactly `Contiguous(months)`. |
| Jobs.ContiguousSteps | server/jobs.py:28-35 | A month list is contiguous iff each month key is the previous plus one. |
| Jobs.StepsReach | server/jobs.py:28-35 | In a contiguous list, key(ms[i]) = key(ms[0]) + i. |
| Jobs.ParseYearMonthParts | server/jobs.py:38-44 | `Y-M` with integer parts parses to (int(Y), int(M)). |
| Jobs.YearMonthRoundTrip | server/jobs.py:38-44 | A zero-padded `YYYY-MM`, as `recompute_baseline` formats it (jobs.py line 90), parses back to the same (year, month) and contains no `_`. |
| Jobs.PeriodRoundTrip | server/jobs.py:38-44 | `_parse_period` of the `YYYY-MM_to_YYYY-MM` window formatted on jobs.py line 90 returns the same start and end. |
| Jobs.PeriodWithoutBounds | server/jobs.py:38-40 | A `None` period, the empty period and `insufficient_data` (the period jobs.py lines 94-96 store) all parse to `None`. |
| Jobs.FirstWindow | server/jobs.py:82-92 | The returned index is the first one from `from` whose 12-row slice is contiguous. `None` means no such slice exists. |
| Jobs.ComputeBaseline | server/jobs.py:72-96 | The window-scanning loop with `break` computes `BaselineOf`. |
| Jobs.BaselineSpec | server/jobs.py:72-96 | A product with fewer than 12 rows, or with no contiguous 12-row slice, gets the value `None` and the period `insufficient_data`. Otherwise it gets the slice at the earliest contiguous index: the value is that slice's total (null totals count as 0), and the period is its formatted first and last month. |
| Jobs.BaselineWindowMonths | server/jobs.py:82-92 | With valid months, a baseline window's end month is exactly 11 months after its start. |
| Jobs.BaselinesOf | server/jobs.py:47-106 | One baseline result per product code, in code order. |
| Jobs.CountWithBaseline | server/jobs.py:123-124 | The `with_baseline` count never exceeds the number of products processed. |
| Jobs.StoreBaselinesSpec | server/jobs.py:108-120 | After the writes, a code is in the table iff it was there or was processed. An unprocessed code keeps its row, and a processed code holds its last result's value and period. |
| Jobs.RecomputeBaseline | server/jobs.py:47-124 | Over the product query, which lists every product once (`Db.ListsProducts`), it returns (number of products, number with a baseline). The baseline table becomes the per-code upserts of `BaselineOf`, and every other table is unchanged. |
| Jobs.BaselineLoop | server/jobs.py:60-106 | The first loop computes `BaselinesOf`: one result per code, in order. |
| Jobs.StoreBaselineLoop | server/jobs.py:108-120 | The upsert loop stores every result in order and changes no other table. |
| Jobs.FirstLoop | server/jobs.py:151-242 | The first loop over products computes the first-phase metrics of every code and the current totals that feed the normalisation. |
| Jobs.FirstPhaseAllStep | server/jobs.py:153-242 | One more product either extends the metrics list by its own first phase or fails with that product's error. |
| Jobs.FirstPhaseErrorSticks | server/jobs.py:153-242 | Once one product's period fails to parse, the whole job fails with that error. |
| Jobs.FirstPhaseWithoutWindow | server/jobs.py:167-191 | With fewer than 12 rows, or a non-contiguous last-12 window, every metric is `None`, including the opportunity score (kept `None` by jobs.py lines 246-250). |
| Jobs.FirstPhaseWindow | server/jobs.py:179-242 | With a contiguous window, the phase fails iff the stored baseline period does not parse. It has these properties:<br>• `current` is the total of the last 12 rows;<br>• `hhi_current` comes from the shares of exactly that window;<br>• `hhi_baseline` is only computed when the period parses;<br>• no opportunity score is assigned before the normalisation. |
| Jobs.ReductionSpec | server/jobs.py:196-202 | `reduction_abs` is known iff the baseline is, and it equals baseline − current. `reduction_pct` is `None` iff the baseline is `None` or 0. Otherwise pct × baseline = baseline − current, so for a positive baseline the pct is positive iff current < baseline. |
| Jobs.ConcentrationShiftSpec | server/jobs.py:230-232 | The shift is `None` iff both indices are `None`. With both known, shift + hhi_current = hhi_baseline, and the shift is positive iff concentration fell. |
| Jobs.AsSharesSum | server/jobs.py:206-216 | Turning the partner fractions into HHI input keeps their sum and their non-negativity. |
| Jobs.HhiOfSpec | server/jobs.py:206-229 | For non-negative partner totals, the index is known iff the known total is positive, and it then lies in (0, 1]. |
| Jobs.FirstPhaseHhiBounds | server/jobs.py:206-229 | Every computed `hhi_current` lies in (0, 1] when partner totals are non-negative. |
| Jobs.FirstPhaseAllAt | server/jobs.py:153-242 | Element i of the first-phase list is the first phase of code i. |
| Jobs.CurrentTotalsKeys | server/jobs.py:193-244 | The normalisation runs over exactly the products that have a current total. |
| Jobs.CurrentTotalsStep | server/jobs.py:193-194 | One more product appends `(code, current)` to the totals exactly when its current total is set. |
| Jobs.ScoreLoop | server/jobs.py:244-255 | The second loop computes `Scored`: each product's metrics with its opportunity score filled in. |
| Jobs.Scored | server/jobs.py:244-255 | One scored metric per product, each given by `ScoredAt`. |
| Jobs.ProgressOpportunity | server/jobs.py:244-255 | Scoring changes only the opportunity field. A product has a score iff it has a current total. The score is norm[code] × (1 − (hhi_current or 0)) × feasibility(sectors), with norm computed once over all current totals. |
| Jobs.OpportunityBounds | server/jobs.py:246-255 | With norm in [0, 1] and the HHI in [0, 1], the score exists iff the current total does, and it lies in [0, 0.7]. |
| Jobs.ProgressOpportunityBounds | server/jobs.py:127-291 | Every opportunity score the job stores lies in [0, 0.7]. |
| Jobs.FirstPhaseAll | server/jobs.py:153-242 | On success, one metrics record per code. |
| Jobs.ProgressOf | server/jobs.py:127-291 | On success, one metrics record per code. |
| Jobs.StoreLoop | server/jobs.py:257-289 | The store loop writes one progress row per code and changes nothing else. |
| Jobs.RecomputeProgress | server/jobs.py:127-291 | Over the product query, which lists every product once, it fails iff the specification `ProgressOf` fails, with the same error and the progress table untouched. Otherwise it returns the number of products and stores every computed progress row. No other table changes. |
| Util.TransformedNoneAsZero | server/util.py:24 | A `None` value is transformed as if it were 0. |
| Util.TransformedMonotone | server/util.py:9-24 | The log transform preserves order, and strict order. |
| Util.MinLog | server/util.py:26 | The minimum is attained and bounds every transformed value from below. |
| Util.MaxLog | server/util.py:27 | The maximum is attained and bounds every transformed value from above. |
| Util.NormLog | server/util.py:21-22 | An empty input gives the empty map. |
| Util.NormLogKeys | server/util.py:17-31 | The output has exactly the input's keys. |
| Util.NormLogValue | server/util.py:24-31 | The last value given for a key is scaled as (t − min) / (max − min), or 0 when max = min. |
| Util.NormLogConstant | server/util.py:28-30 | When all transformed values are equal, every output is 0.0. |
| Util.NormLogBounds | server/util.py:26-31 | Every output lies in [0, 1]. |
| Util.NonConstantSpan | server/util.py:26-29 | Two different transformed values mean a positive span. |
| Util.NormLogMinIsZero | server/util.py:26-31 | With distinct keys, the minimum maps to 0. |
| Util.NormLogMaxIsOne | server/util.py:26-31 | With distinct keys and a non-constant set, the maximum maps to 1. |
| Util.NormLogExtremes | server/util.py:26-31 | A non-constant set has an output equal to 0 and an output equal to 1. |
| Util.NormLogMonotone | server/util.py:9-31 | For a strictly increasing log, a larger input never gets a smaller output, and a strictly larger input gets a strictly larger one, both with distinct keys. |
| Util.HhiFromShares | server/util.py:34-43 | `None` iff there are no shares; otherwise non-negative. |
| Util.SumSquaresBelowSum | server/util.py:43 | For shares in [0, 1], the sum of squares lies between 0 and the sum of shares, and is positive when that sum is. |
| Util.HhiBounds | server/util.py:34-43 | For non-negative shares summing to 1, the index lies in (0, 1]. |
| Util.HhiSinglePartner | server/util.py:34-43 | A single share of 1.0 has index 1.0. |
| Util.HhiNoneAsZero | server/util.py:43 | A `None` share counts exactly as a share of 0. |
| Util.SectorScore | server/util.py:46-63 | The lower-cased sector's entry in the feasibility table, or 0.6 for a sector missing from it. Every score lies within [0.5, 0.7]. |
| Util.TechFeasibilityFor | server/util.py:56-65 | The loop updating `best` computes `TechFeasibility`. |
| Util.BestScoreIsMax | server/util.py:61-64 | The best score is attained by some sector and bounds every sector's score. |
| Util.TechFeasibilitySpec | server/util.py:56-65 | `None` or no sectors gives 0.6. Otherwise the result is the maximum case-insensitive table score over the sectors, and it always lies in [0.5, 0.7]. |
| Normalize.HsDigits | server/etl/normalize.py:15 | The result is all digits and no longer than the input. A character occurs in it iff it is a digit occurring in the input. |
| Normalize.HsDigitsAppend | server/etl/normalize.py:15 | The digits of a concatenation are the digits of the first part followed by those of the second, so the input's order is kept. |
| Normalize.HsDigitsOfDigits | server/etl/normalize.py:15 | A string of digits is its own digit run. |
| Normalize.PadCut | server/etl/normalize.py:16-19 | The result has exactly `granularity` digits: a prefix of the digits, or the digits right-padded with '0'. |
| Normalize.CanonicalHsCode | server/etl/normalize.py:10-19 | `None` iff the input is `None`, empty or has no digits. Otherwise the result is the first `granularity` characters of the concatenated digit runs, zero-padded. |
| Normalize.CanonicalHsCodeIdempotent | server/etl/normalize.py:10-19 | For granularity ≥ 1, canonicalising a canonical code returns it unchanged. |
| Normalize.InferSectors | server/etl/normalize.py:32-50 | The loops building `snippets` and `sectors` compute `InferredSectors`. |
| Normalize.CollectSnippets | server/etl/normalize.py:35-42 | The loop over the blocks collects `Snippets`: missing blocks skipped, items of a collection kept when truthy, a plain block kept as is. |
| Normalize.AppendTruthy | server/etl/normalize.py:40-41 | Extending with a collection appends its truthy items, in order. |
| Normalize.MatchSectors | server/etl/normalize.py:44-47 | The loop over the keyword table collects `Matching`: the sectors with a keyword in the text, in table order. |
| Normalize.InferredSectors | server/etl/normalize.py:47-50 | The result is never empty. |
| Normalize.MatchingSpec | server/etl/normalize.py:40-46 | A sector is matched iff one of its keywords occurs in the haystack. At most one entry per table row. |
| Normalize.MatchingOrdered | server/etl/normalize.py:40-46 | Matched sectors appear in table order, so there are no duplicates. |
| Normalize.MatchingEmptyIff | server/etl/normalize.py:40-50 | No sector matches iff no keyword occurs. |
| Normalize.InferredSectorsSpec | server/etl/normalize.py:22-50 | `None` blocks are skipped, and list/tuple/set blocks are flattened with falsy items skipped. The lower-cased, space-joined haystack yields exactly these sectors: the matched ones in table order, or `industrial` when none matches. The result is non-empty. |
| Normalize.NoKeywordIsIndustrial | server/etl/normalize.py:47-50 | No keyword gives exactly `["industrial"]`. |
| Normalize.ParseCsvSectorsClean | server/etl/normalize.py:53-59 | Every parsed sector is non-empty, trimmed and free of commas. |
| Normalize.BracedSegments | server/etl/normalize.py:56-59 | One enclosing pair of braces is removed before splitting. |
| Normalize.ParseCsvSectorsRoundTrip | server/etl/normalize.py:53-59 | Parsing `{a,b,…}` built from clean names gives back exactly those names. |
| Normalize.SegmentsOfJoin | server/etl/normalize.py:57-59 | Splitting comma-joined clean names and dropping empty trimmed segments gives back the names. |
| Normalize.EnsureUsd | server/etl/normalize.py:62-65 | The identity, `None` included. |
| Dgcis.MissingColumns | server/etl/dgcis.py:31-45 | A required column is reported iff the header lacks it, or there is no header. |
| Dgcis.ToFloat | server/etl/dgcis.py:58-65 | An absent or empty cell gives `None`, never 0.0. A non-empty cell gives its `float()` parse, `None` when it does not parse. |
| Dgcis.CompleteSpec | server/etl/dgcis.py:75-86 | Without a rate, both values pass through unchanged. Present values are kept. With a rate and one value missing, inr = usd × rate. The only failure is a zero rate with INR known and USD missing (Python's division by zero). |
| Dgcis.RateOf | server/etl/dgcis.py:75-78 | A failed lookup gives `None`, and the record is still built. |
| Dgcis.ParseRowSpec | server/etl/dgcis.py:48-100 | A row is dropped iff its code does not canonicalise, its year or month is not an integer, or both values are missing. A kept record carries:<br>• the 6-digit code, year and month;<br>• the looked-up rate;<br>• the completed values;<br>• a non-empty title and sectors. |
| Dgcis.ParseRows | server/etl/dgcis.py:103-111 | One parse result per row, in order. |
| Dgcis.LoadCsvSpec | server/etl/dgcis.py:39-113 | A missing required column fails. `load_csv` succeeds iff the columns are there, no row raises and some row is kept. |
| Dgcis.LoadCsvContents | server/etl/dgcis.py:103-113 | A successful `load_csv` returns exactly the kept rows' records, and at least one. |
| Dgcis.LoadCsvFrom | server/etl/dgcis.py:103-113 | The appending loop computes `LoadCsv`. |
| Dgcis.LoadedPrefix | server/etl/dgcis.py:120-123 | The number of leading records that have USD, INR and rate, so the first record lacking one sits right after them. |
| Dgcis.Load | server/etl/dgcis.py:116-147 | `load` succeeds iff every record has all three values. It returns (distinct codes, records). Up to the first incomplete record, each code is upserted once at its first occurrence and every record is inserted. An incomplete record raises with its message. |
| Dgcis.WriteLoaded | server/etl/dgcis.py:120-146 | The loop stops at the first incomplete record. The written products, monthly rows and seen codes are those of the records before it. |
| Dgcis.LoadRecord | server/etl/dgcis.py:120-146 | One more record extends the seen codes and the tables the earlier records left by that record. |
| Dgcis.WriteRecord | server/etl/dgcis.py:124-146 | One record upserts its product (only when first seen) and inserts its monthly row. |
| Dgcis.Run | server/etl/dgcis.py:150-160 | A missing file or a failing `load_csv` raises and writes nothing. Otherwise `load` runs: it succeeds iff every record is complete, reporting (distinct codes, records, "dgcis", path) after writing every record. Else it raises for the first incomplete record, after writing the records before it. Baselines and progress never change. |
| Comtrade.Or | server/etl/comtrade.py:80-86 | Python `or`: one of the operands, truthy iff either is. |
| Comtrade.ToFloat | server/etl/comtrade.py:82-90 | `None` gives `None`, a number gives itself, and a string gives its `float()` parse. |
| Comtrade.StrippedOr | server/etl/comtrade.py:79-81 | `(v or "").strip()`: it raises iff the value is truthy but not a string. |
| Comtrade.HsCodeOf | server/etl/comtrade.py:72-74 | A code is produced iff the value is truthy and has digits. It is then the value's digits padded or cut to six. |
| Comtrade.QtyOf | server/etl/comtrade.py:86-90 | `qty` comes from `NetWeight`, or from `qty` when `NetWeight` is falsy. |
| Comtrade.MakeRecord | server/etl/comtrade.py:91-106 | The record has the code, year and month set, capex `None`, and a title defaulting to `HS <code>`. An empty partner becomes `None`. The value is the parsed `TradeValue`, and the sectors are non-empty. |
| Comtrade.ParseItemDrops | server/etl/comtrade.py:72-77 | A row is dropped iff `cmdCode` does not canonicalise or the period is not 6 characters long. |
| Comtrade.ParseItemFails | server/etl/comtrade.py:78-81 | A kept row raises iff a 6-character period has a non-integer year or month, or the title or partner is truthy but not a string. |
| Comtrade.ParseItemFields | server/etl/comtrade.py:78-106 | A parsed record has these fields:<br>• year = period[0..4) and month = period[4..6);<br>• the stripped title, defaulting to `HS <code>`;<br>• the partner from stripped `ptTitle` falling back to `pt3ISO`, with empty meaning `None`;<br>• value `None` for an absent `TradeValue`;<br>• qty from `NetWeight`, else `qty`. |
| Comtrade.ParseDatasetSpec | server/etl/comtrade.py:69-107 | It succeeds iff no row raises. The first failing row's error is reported. The records are exactly the kept rows', in input order. |
| Comtrade.ParseDatasetAppend | server/etl/comtrade.py:69-107 | Parsing distributes over concatenation. |
| Comtrade.ParseDatasetFrom | server/etl/comtrade.py:69-107 | The appending loop computes `ParseDataset`. |
| Comtrade.OrEnv | server/etl/comtrade.py:118-120 | An explicit non-empty argument wins. Otherwise the environment value is used, and the default when it is unset. |
| Comtrade.FetchParamsSpec | server/etl/comtrade.py:118-129 | The query has exactly the six keys, `type` C and `classification` HS. The defaults are India, import and M. `time_period` splits back into from and to. |
| Comtrade.FetchParamsExplicit | server/etl/comtrade.py:118-120 | Explicit reporter, flow and frequency are used as given. |
| Comtrade.VerdictOf | server/etl/comtrade.py:47-65 | After one attempt:<br>• it retries iff the attempt is retryable (a retry status or a connection failure) and not the last;<br>• any other HTTP status raises at once with that status;<br>• it returns iff the status is fine and the body decodes. |
| Comtrade.Request | server/etl/comtrade.py:44-66 | The attempt loop computes `RequestFrom` from attempt 1, including the sleeps. |
| Comtrade.RetryStep | server/etl/comtrade.py:56-65 | A retried attempt adds its back-off and moves to the next attempt. |
| Comtrade.RequestSleeps | server/etl/comtrade.py:47-65 | Sleep k is min(2^(a+k), 30). Every slept-after attempt was retried, and there are at most `MAX_RETRIES` attempts. |
| Comtrade.RequestLast | server/etl/comtrade.py:47-65 | The outcome is the verdict of the last attempt made. |
| Comtrade.RequestSchedule | server/etl/comtrade.py:20-66 | At most 4 attempts, and the sleeps are a prefix of [2, 4, 8]. The `RuntimeError` after the loop is unreachable. A raised failure is the last attempt's. |
| Comtrade.RequestFailsFast | server/etl/comtrade.py:55-60 | A non-retryable HTTP status on the first attempt raises with no sleep. |
| Comtrade.RequestGivesUp | server/etl/comtrade.py:47-65 | Four retryable attempts raise the last one's failure after sleeping 2, 4 and 8 seconds. |
| Comtrade.FetchRangeSpec | server/etl/comtrade.py:110-133 | `fetch_range` succeeds iff the request returns and no dataset row raises. A missing dataset gives no records. |
| Comtrade.FetchRangeFrom | server/etl/comtrade.py:110-133 | Computes `FetchRange`. |
| Comtrade.LoadCounts | server/etl/comtrade.py:205 | The product count is at most the record count, and at least 1 for a non-empty load. |
| Comtrade.Load | server/etl/comtrade.py:176-205 | Returns (distinct codes, records). Each code is upserted once at its first occurrence, every record's monthly row is inserted, and no other table changes. |
| Comtrade.WriteRecord | server/etl/comtrade.py:183-203 | One record upserts its product (only when first seen) and inserts its monthly row. |
| Comtrade.Run | server/etl/comtrade.py:208-229 | On a failing fetch it uses the CSV fallback's records and tag. No records reports zero counts and writes nothing. Otherwise it returns `load`'s counts with the source tag, after `load`'s writes to products and monthly rows. Baselines and progress never change. |
| Forex.MissingColumns | server/forex.py:24-28 | A required column is reported iff the header lacks it, or there is no header. |
| Forex.ParseRows | server/forex.py:29-35 | One parse result per row. |
| Forex.LoadRatesFrom | server/forex.py:21-39 | The row-by-row loop filling `table` computes `LoadRates`. |
| Forex.FillOk | server/forex.py:29-36 | Building the table succeeds iff every row parses. |
| Forex.FillKeys | server/forex.py:29-36 | The table's keys are exactly the rows' (year, month) pairs. |
| Forex.FillLastWins | server/forex.py:36 | For a repeated (year, month), the last row's rate is stored. |
| Forex.LoadRatesSpec | server/forex.py:21-39 | The table loads iff the columns are present, every row parses and there is at least one row. |
| Forex.MissingRateColumn | server/forex.py:25-28 | A header without `usd_to_inr` raises with the column named. |
| Forex.MonthlyRateSpec | server/forex.py:42-52 | A month outside 1..12 raises before any lookup. A present key returns its rate, and a missing one raises. A success implies the file exists, loads and holds the key. |
| Forex.RateService.constructor | server/forex.py:20-21 | An empty cache. |
| Forex.RateService.MonthlyRate | server/forex.py:42-52 | An invalid month leaves the cache alone. Otherwise the cached or freshly loaded table answers and is cached under the path. With a fresh cache, the answer equals the uncached `MonthlyRateOf`. |
| Forex.RateService.ResetCache | server/forex.py:55-58 | It clears the cache and leaves the files and path unchanged. |
| Forex.LookupAfterReset | server/forex.py:20-58 | A lookup after `reset_cache` returns what the uncached lookup returns. |
| Db.UpsertProductSpec | server/db.py:143-152 | The product key is added and other codes are untouched. Title, description and sectors are replaced on conflict, and null capex keeps the old value. |
| Db.UpsertProductIdempotent | server/db.py:143-152 | Upserting the same product twice equals upserting it once. |
| Db.InsertMonthlySpec | server/db.py:172-183 | For a non-NULL partner, the row's key (code, year, month, partner) now maps to its four measures, nulls included, and every other key is unchanged. |
| Db.InsertMonthlyIdempotent | server/db.py:172-183 | For a non-NULL partner, inserting the same row twice equals inserting it once. |
| Db.InsertNullPartnerNotIdempotent | server/db.py:172-183 | A NULL-partner row never conflicts, so inserting it twice adds two rows. |
| Db.InsertAllSpec | server/db.py:158-184 | After a sequence of `insert_monthly` calls (as the loaders and the seed make them), a key is present iff it was present before or some keyed row has it. Keys no row touches keep their measures. |
| Db.InsertAllLastWins | server/db.py:158-184 | Over a sequence of `insert_monthly` calls, the last row written for a key determines its measures. |
| Db.PagesFlatten | server/db.py:197-209 | The pages `execute_values` sends cover the rows exactly, in order. |
| Db.PagesSizes | server/db.py:197-209 | Each page holds 1 to 100 rows, and every page but the last holds exactly 100. |
| Db.DistinctKeysNoRepeat | server/db.py:197-209 | Rows without two rows for one key give no failing page. |
| Db.RepeatInFirstPage | server/db.py:197-209 | Two rows for one key within the first 100 make the first page fail, so nothing is written. |
| Db.ListsProductsCount | server/jobs.py:56-58 | The product query returns as many codes as there are products. |
| Db.CodesOfBounds | server/db.py:131-155 | The number of distinct codes is at most the number of inputs, and at least one for non-empty input. |
| Db.UpsertFirstsKeys | server/db.py:131-155 | First-occurrence upserts add exactly the input codes and leave other codes untouched. |
| Db.UpsertFirstsAt | server/db.py:131-155 | Each code holds the upsert of its first occurrence. |
| Db.LoadStep | server/db.py:131-184 | One step of the loaders' loop: a new code is upserted, a seen one is skipped, and the row is inserted. |
| Db.InPeriodByMonthKey | server/db.py:311-314 | The inclusive lexicographic (year, month) period test equals comparing month keys. |
| Db.PartnerShares | server/db.py:321-324 | A known total ≤ 0 gives no shares. |
| Db.FractionsSum | server/db.py:321-324 | The shares sum to the known total divided by the divisor. |
| Db.PartnerSharesSumToOne | server/db.py:321-324 | With a positive known total, the shares sum to 1. |
| Db.PartnerSharesOfRow | server/db.py:321-324 | Each partner with a known total gets total / sum. |
| Db.FractionsNonNegative | server/db.py:321-324 | Non-negative totals give non-negative shares. |
| Db.FetchLast36mSpec | server/db.py:280-293 | Given the raw rows newest month first (several rows per month, one per partner), it returns the first 36 reversed: at most 36 rows, oldest month first, and no row left out is of a later month than a returned one. |
| Db.FetchLast36mSplitsMonth | server/db.py:280-293 | A month with two partners can straddle the cut: one of its rows is returned and the other is not. |
| Db.LatestYearMonthAsWritten | server/db.py:349-355 | `None` iff there is no data. Otherwise the year and the month are each the independent maximum of an observed month. |
| Db.LatestYearMonthAsWrittenUnobserved | server/db.py:349-355 | For data from 2023-12 and 2024-01, it reports a month that was never observed (2024-12). |
| Db.LatestYearMonth | server/db.py:349-355 | The corrected query: `None` iff there is no data; otherwise an observed month no earlier than any other. |
| Db.Database.constructor | server/db.py:43-128 | The tables start empty. |
| Db.Database.UpsertProduct | server/db.py:131-155 | The product table becomes `UpsertProductIn`, and the other tables are unchanged. |
| Db.Database.InsertMonthly | server/db.py:158-184 | The monthly table (or the NULL-partner rows) gain the row, and the other tables are unchanged. |
| Db.Database.BulkInsertMonthly | server/db.py:187-210 | `Ok(0)` for no rows. Otherwise the pages are sent in order. It fails with Postgres's "cannot affect row a second time" error iff some page has two rows with one key, after writing the whole pages before that one. On success it returns `len(rows)` with every row upserted in order. |
| Db.Database.InsertPage | server/db.py:197-209 | One statement of a page: its rows are upserted in order after the rows already written. |
| Db.Database.UpsertBaseline | server/db.py:213-231 | It replaces the baseline row of one code, leaving other codes and tables alone. |
| Db.Database.UpsertProgress | server/db.py:234-277 | It replaces the progress row of one code, leaving other codes and tables alone. |
| Api.Guard | server/main.py:38-50 | Access is granted iff the admin key is set and non-empty, the header starts with `Bearer ` and the stripped rest equals the key. Every other case is 401 `Unauthorized`. |
| Api.BearerToken | server/main.py:48 | For a `Bearer ` header, `split(" ", 1)[1]` is everything after the prefix. |
| Api.GuardRejectsPaddedKey | server/main.py:48-50 | A key with leading or trailing whitespace can never be matched. |
| Api.GuardAcceptsBearer | server/main.py:46-50 | `Bearer `, optional whitespace, the key and optional whitespace is always granted. |
| Api.RequestedSectors | server/main.py:202 | No request, or an empty one, gives no sectors. Requested sectors are never empty. |
| Api.LowerAll | server/main.py:202-205 | Element-wise lower-casing. |
| Api.CapexCell | server/main.py:214-215 | An absent or empty cell is `None`. Otherwise the cell's `float()`, which raises when unparsable. |
| Api.SeedValue | server/main.py:221 | `float(v or 0)`: a falsy cell counts as 0, otherwise its parse. |
| Api.StrippedCell | server/main.py:224 | `row["hs_code"].strip()` raises iff the column is absent or null. |
| Api.StrippedOrEmpty | server/main.py:225 | `row.get(k, "").strip()` (also on main.py lines 142-143) raises iff the column is present but null. |
| Api.ListRowFilters | server/main.py:202-220 | A row failing the AND/OR sector filter is skipped. A row passing it is skipped iff the capex filter excludes it. A failure comes only from an unparsable number or a null code or title. |
| Api.ListRowItem | server/main.py:221-234 | A listed item has:<br>• value 12 × seed when the seed is non-zero, else `None`;<br>• the row's lower-cased sectors;<br>• the parsed capex;<br>• the stripped code;<br>• no reduction and no score. |
| Api.InsertDesc | server/main.py:235-241 | Insertion is a permutation adding one element. |
| Api.SortDesc | server/main.py:235-241 | The sort is a permutation. |
| Api.SortedCons | server/main.py:235-241 | A cons is sorted iff the tail is sorted and bounded by the head's key. |
| Api.InsertDescSorted | server/main.py:235-241 | Inserting into a sorted list keeps it sorted. |
| Api.InsertDescStable | server/main.py:235-241 | Insertion keeps elements of equal key in their order. |
| Api.InsertDescStableSame | server/main.py:235-241 | An inserted element goes before the elements already there with its key. |
| Api.InsertDescStableOther | server/main.py:235-241 | Inserting an element leaves the elements of every other key, in their order. |
| Api.SortDescSpec | server/main.py:235-241 | `list.sort(reverse=True)`: sorted by descending key, stable (the elements of each key value keep their input order), and a permutation. |
| Api.SortDescConstant | server/main.py:238-241 | With every key equal (no reduction or score in the fallback), sorting keeps the order. |
| Api.ListFallbackSpec | server/main.py:200-243 | The listing succeeds iff no row raises. Its items are the first `limit` of the stably sorted kept rows, and `count` is their number. `limit` ≥ 0 gives min(limit, kept). The source is `seed`, and the kept rows are exactly those the filters accept. |
| Api.ListFallbackUnsorted | server/main.py:238-243 | Sorting by progress or opportunity leaves the kept rows in CSV order before the limit. |
| Api.ListFallbackFrom | server/main.py:204-243 | The appending loop computes `ListFallback`. |
| Api.SeedItem | server/main.py:132-150 | A parsed seed row is always kept. |
| Api.SeedMonths | server/main.py:151-161 | Twelve monthly rows per seed row. |
| Api.SeedInputs | server/main.py:139-147 | One product input per seed row. |
| Api.SeedMonthlySpec | server/main.py:151-161 | Monthly row j belongs to seed row j / 12, for 2024, month j % 12 + 1, with the seed value and the partner (default `Unknown`) and nothing else. |
| Api.SeedMonthlyKeyed | server/main.py:150-159 | Every seeded row has a partner, so it is keyed. |
| Api.SeedItemsSpec | server/main.py:132-161 | Seeding parses iff every row does. It gives one seed row per CSV row and 12 monthly rows each. |
| Api.SeedStep | server/main.py:132-161 | One more row upserts its product and inserts its twelve months. |
| Api.InsertAllAppend | server/db.py:158-184 | Inserting a + b equals inserting a, then b. |
| Api.WriteMonths | server/main.py:151-161 | The month loop inserts the twelve rows of one seed row. |
| Api.WriteSeedRow | server/main.py:133-161 | One row's product upsert and months. |
| Api.WriteSeedNext | server/main.py:133-161 | One more seed row extends the tables the earlier rows left by its product and its twelve months. |
| Api.WriteSeed | server/main.py:132-161 | The seed loop succeeds iff every row parses, and otherwise raises the first error. It counts `products` = rows and `monthly_rows` = 12 × rows, and writes exactly those products and months. |
| Api.SeedTransaction | server/main.py:128-164 | The seed loop, then both recompute jobs, with their combined result or the first error. The jobs' product query, run after the writes, lists the products as written, and the counts equal the number of products. |
| Api.SeedDatabase | server/main.py:121-175 | No CSV rows means not seeded and no writes. An error rolls every table back. Success reports (rows, 12 × rows, the baseline counts, the progress count, `seed`) with every table as the seed loop and the two jobs leave it. The job counts equal the number of products after the writes. |

## Left out

- HTTP, JSON decoding, `urllib` URLs and `urlencode`, `COMTRADE_BASE`, timeouts and logging are not modelled. The server is a function of the query and the attempt number, and a response body the JSON decoder rejects is one `Undecodable` failure. `time.sleep` is returned as the list of sleeps.
- A JSON array or object as a row field, and a payload that is not a JSON object, are not modelled. Row fields are scalars.
- SQL text is not modelled: the DDL in `init_db`/`ensure_extensions`, cursor handling, and the SUM/GROUP BY that produces monthly totals and partner totals. SELECT results are parameters or inputs.
- The `db.connect` commit/rollback is modelled only for `seed_database`, as restoring every table on an error. The loaders receive the connection from their caller, so their partial writes stay visible in the model.
- Postgres NULL semantics: rows with a NULL partner are kept as an unkeyed sequence. The idempotence lemmas therefore require a partner.
- Db.PageSize: the 100 rows per `execute_values` statement is psycopg2's default `page_size`, which the source does not override. After a failing page, Postgres aborts the whole transaction; whether the earlier pages survive is the caller's commit or rollback, and the model keeps them.
- Db.Database.BulkInsertMonthly: the type hint of `rows` lists seven fields while the INSERT names eight columns. The model takes rows with all eight. The function has no caller in the core.
- Db.FetchLast36m: the order of the rows within one month is whatever the database returns. The model takes the query's rows as given, in any such order.
- Forex.LoadRates: the "Invalid FX rate row" message omits the `repr` of the offending row dictionary that the source appends.
- Jobs.RecomputeBaseline and Jobs.RecomputeProgress: the product query's `ORDER BY hs_code` is not required of `codes`. Only that it lists every product once is required.
- Files are not read. `_ensure_seed_file`, `_csv_rows`, `_load_csv_fallback`, `_read_csv` and `_rates_file` are represented by their parsed contents, with `None` for a missing file. `_load_csv_fallback`'s row-to-record logic is not modelled; its records are an input of `Comtrade.Run`.
- `os.getenv` is a map, and timestamps (`now`, `last_updated`) are not modelled.
- Forex.RateService: `lru_cache(maxsize=8)` eviction is not modelled. The cache keeps every path it loaded, which changes no result.
- Float and int parsing covers decimal forms: sign, digits, one point. Exponents, `inf`/`nan` and `int()`'s underscores are not modelled, and neither is case mapping beyond ASCII.
- Strings.IsDigit: a digit is an ASCII `0`-`9`. Python's `re` `\d`, `str.isdigit` and `int()` also accept other Unicode decimal digits (Arabic-Indic, Devanagari and others), so `Normalize.HsDigits`, `Normalize.CanonicalHsCode` and the int and float parsers reject codes and numbers written with them that the source accepts. `Strings.Lower` likewise maps only ASCII letters.
- `math.log1p` and floating-point rounding are not modelled. `log1p` is a parameter, and its domain error on values ≤ −1 is not represented.
- The `list.sort` in the fallback listing is a stable insertion sort on a sequence (`Api.SortDesc`), not an in-place sort of a list object.
- The database path of `list_products` (server/main.py:248 onward), product detail, leaderboard, domestic capability and the recompute endpoint are SQL pass-through and are not modelled.
- The FastAPI parameter validation of `limit` (`ge=1, le=200`) is not modelled. Any integer limit is applied with Python slicing (`Strings.SliceTo`).
- Api.WriteSeed and Api.SeedTransaction take the row parser as a parameter. `Api.SeedDatabase` instantiates it with `Api.SeedItem`.
- Api.SeedDatabase: the source parses each row inside the write loop. The model reports the same first error, and the rollback makes the partial writes invisible.
- `jobs.py` passes `period=` to `db.partner_shares`, which has no such parameter (server/jobs.py:208-228, server/db.py:296-302). The model reads the call as "partner totals for start..end".
- `comtrade.load` and `seed_database` omit `value_inr`/`fx_rate`, which `db.insert_monthly` requires. The model stores them as null.
- Several tests in the original repository describe behaviour the code does not have, and the code is followed:
  - `jobs.MonthlyTotal` with zero-filled, latest-window baselines;
  - Comtrade pagination, `reporterCode`/`partnerCode` and FX handling in `load`;
  - HTTP 500 from the listing without a database.

## Findings

| source | as written | input that shows it | evidently intended | confidence | as-written member | corrected member |
|---|---|---|---|---|---|---|
| server/db.py:349-355 | `SELECT MAX(year), MAX(month)` maximises the year and the month independently | data for 2023-12 and 2024-01 gives (2024, 12), a month with no data | the latest observed (year, month) | not executed | Db.LatestYearMonthAsWritten, Db.LatestYearMonthAsWrittenUnobserved | Db.LatestYearMonth |
