/**
 * The UN Comtrade loader: the preview API's JSON rows parsed into monthly import
 * records, the request parameters, the attempt-and-backoff schedule of the HTTP
 * request, the load loop that upserts each product once and inserts every
 * record, and the result `run` reports (with the CSV fallback's records).
 */
module Comtrade {
  import opened Wrappers
  import opened Strings
  import opened Normalize
  import opened Db

  /* ---------- JSON rows ---------- */

  /** A JSON scalar as `json.loads` produces it; `printed` is Python's `str` of the number. */
  datatype Value = Null | Text(s: string) | Number(x: real, printed: string) | Flag(b: bool)

  /** One element of the payload's `dataset` array. */
  type JsonRow = map<string, Value>

  /** `row.get(key)`: a missing key reads as `None`. */
  function Field(row: JsonRow, key: string): Value {
    if key in row then row[key] else Null
  }

  /** Python truthiness of a JSON scalar. */
  predicate IsTruthy(v: Value) {
    match v
    case Null => false
    case Text(s) => s != ""
    case Number(x, _) => x != 0.0
    case Flag(b) => b
  }

  /** Python's `a or b`. */
  function Or(a: Value, b: Value): (r: Value)
    ensures r == a || r == b
    ensures IsTruthy(r) <==> IsTruthy(a) || IsTruthy(b)
  {
    if IsTruthy(a) then a else b
  }

  /** Python's `str(v)`. */
  function Str(v: Value): string {
    match v
    case Null => "None"
    case Text(s) => s
    case Number(_, printed) => printed
    case Flag(b) => if b then "True" else "False"
  }

  /** The name of a value's Python type. */
  function TypeName(v: Value): string {
    match v
    case Null => "NoneType"
    case Text(_) => "str"
    case Number(_, printed) => if '.' in printed || 'e' in printed || 'E' in printed then "float" else "int"
    case Flag(_) => "bool"
  }

  /** `float(v) if v is not None else None`, with `None` where `float` raises. */
  function ToFloat(v: Value): (r: Option<real>)
    ensures v.Null? ==> r.None?
    ensures v.Number? ==> r == Some(v.x)
    ensures v.Text? ==> r == ParseFloat(v.s)
  {
    match v
    case Null => None
    case Text(s) => ParseFloat(s)
    case Number(x, _) => Some(x)
    case Flag(b) => Some(if b then 1.0 else 0.0)
  }

  /** `(v or "").strip()`: only a truthy value that is not a string raises. */
  function StrippedOr(v: Value): (r: Result<string>)
    ensures r.Err? <==> IsTruthy(v) && !v.Text?
    ensures r.Ok? ==> r.value == (if v.Text? then Strip(v.s) else "")
  {
    if !IsTruthy(v) then Ok("")
    else
      match v
      case Text(s) => Ok(Strip(s))
      case _ => Err("'" + TypeName(v) + "' object has no attribute 'strip'")
  }

  /** `canonical_hs_code(v)`: a falsy value has no code; otherwise the digits of `str(v)`. */
  function HsCodeOf(v: Value): (r: Option<string>)
    ensures r.Some? ==> |r.value| == Normalize.DefaultGranularity && AllDigits(r.value)
    ensures r.Some? <==> IsTruthy(v) && HsDigits(Str(v)) != ""
    ensures r.Some? ==> r.value == Normalize.PadCut(HsDigits(Str(v)), Normalize.DefaultGranularity)
  {
    if !IsTruthy(v) then None else CanonicalHsCode(Some(Str(v)), Normalize.DefaultGranularity)
  }

  /** `str(row.get("period") or "")`. */
  function PeriodOf(row: JsonRow): string {
    var p := Field(row, "period");
    if IsTruthy(p) then Str(p) else ""
  }

  function IntError(s: string): string {
    "invalid literal for int() with base 10: '" + s + "'"
  }

  /** One parsed Comtrade row. */
  datatype Record = Record(
    hsCode: string,
    title: string,
    description: string,
    sectors: seq<string>,
    capexMin: Option<real>,
    capexMax: Option<real>,
    year: int,
    month: int,
    valueUsd: Option<real>,
    qty: Option<real>,
    partner: Option<string>)

  /**
   * One row of `_parse_dataset`: `Ok(None)` for a dropped row, an error for what
   * raises (a period whose year or month is not an integer, a title or partner
   * that is not a string).
   */
  function ParseItem(row: JsonRow): Result<Option<Record>> {
    var code := HsCodeOf(Field(row, "cmdCode"));
    var period := PeriodOf(row);
    if code.None? || |period| != 6 then Ok(None)
    else
      match ParseKept(row, code.value, period)
      case Err(e) => Err(e)
      case Ok(r) => Ok(Some(r))
  }

  /** A row with a code and a six-character period: its year and month, then its title and partner. */
  function ParseKept(row: JsonRow, code: string, period: string): Result<Record>
    requires |period| == 6
  {
    var year := ParseInt(period[..4]);
    var month := ParseInt(period[4..6]);
    if year.None? then Err(IntError(period[..4]))
    else if month.None? then Err(IntError(period[4..6]))
    else
      match StrippedOr(Field(row, "cmdDescE"))
      case Err(e) => Err(e)
      case Ok(title) =>
        match StrippedOr(PartnerOf(row))
        case Err(e) => Err(e)
        case Ok(partner) => Ok(MakeRecord(row, code, year.value, month.value, title, partner))
  }

  /** `row.get("ptTitle") or row.get("pt3ISO")`. */
  function PartnerOf(row: JsonRow): Value {
    Or(Field(row, "ptTitle"), Field(row, "pt3ISO"))
  }

  /** `(row.get("NetWeight") or row.get("qty"))` as a float. */
  function QtyOf(row: JsonRow): (r: Option<real>)
    ensures r == if IsTruthy(Field(row, "NetWeight")) then ToFloat(Field(row, "NetWeight")) else ToFloat(Field(row, "qty"))
  {
    ToFloat(Or(Field(row, "NetWeight"), Field(row, "qty")))
  }

  /** The record of a kept row, from its parsed code, month, stripped title and stripped partner. */
  function MakeRecord(row: JsonRow, code: string, year: int, month: int, title: string, partner: string): (r: Record)
    ensures r.hsCode == code && r.year == year && r.month == month
    ensures r.capexMin.None? && r.capexMax.None?
    ensures r.title == (if title != "" then title else "HS " + code)
    ensures r.partner == (if partner != "" then Some(partner) else None)
    ensures r.valueUsd == ToFloat(Field(row, "TradeValue")) && r.qty == QtyOf(row)
    ensures r.sectors != []
  {
    var description := Or(Or(Field(row, "mainCategory"), Field(row, "aggLevel")), Text(""));
    var sectors := InferredSectors([Plain(title), Plain(Str(description))]);
    Record(code, if title != "" then title else "HS " + code,
           if description.Text? then description.s else "",
           sectors, None, None, year, month,
           EnsureUsd(ToFloat(Field(row, "TradeValue"))), QtyOf(row),
           if partner != "" then Some(partner) else None)
  }

  /** A row is dropped iff its code does not canonicalise or its period is not six characters long. */
  lemma ParseItemDrops(row: JsonRow)
    ensures ParseItem(row) == Ok(None) <==> HsCodeOf(Field(row, "cmdCode")).None? || |PeriodOf(row)| != 6
  {
  }

  /**
   * A kept row raises iff its year or month does not parse as an integer, or its
   * title, or the partner it would use, is a truthy value that is not a string.
   */
  lemma ParseItemFails(row: JsonRow)
    requires HsCodeOf(Field(row, "cmdCode")).Some? && |PeriodOf(row)| == 6
    ensures var period := PeriodOf(row);
      var partner := PartnerOf(row);
      ParseItem(row).Err? <==>
        || ParseInt(period[..4]).None? || ParseInt(period[4..6]).None?
        || (IsTruthy(Field(row, "cmdDescE")) && !Field(row, "cmdDescE").Text?)
        || (IsTruthy(partner) && !partner.Text?)
  {
  }

  /**
   * A kept record has the row's canonical code, the year and month of its period,
   * no capex bounds, a title (the stripped `cmdDescE`, else "HS <code>"), the
   * stripped `ptTitle` (else `pt3ISO`) as partner with "" read as absent, the USD
   * value of `TradeValue` and the quantity of `NetWeight`, or of `qty` when
   * `NetWeight` is falsy, and at least one sector.
   */
  lemma ParseItemFields(row: JsonRow)
    requires ParseItem(row).Ok? && ParseItem(row).value.Some?
    ensures var r := ParseItem(row).value.value;
      var period := PeriodOf(row);
      var title := Field(row, "cmdDescE");
      var partner := PartnerOf(row);
      var netWeight := Field(row, "NetWeight");
      && Some(r.hsCode) == HsCodeOf(Field(row, "cmdCode"))
      && |period| == 6 && Some(r.year) == ParseInt(period[..4]) && Some(r.month) == ParseInt(period[4..6])
      && r.capexMin.None? && r.capexMax.None?
      && r.title != ""
      && (title.Text? && Strip(title.s) != "" ==> r.title == Strip(title.s))
      && (!title.Text? || Strip(title.s) == "" ==> r.title == "HS " + r.hsCode)
      && (r.partner.None? <==> !partner.Text? || Strip(partner.s) == "")
      && (r.partner.Some? ==> partner.Text? && r.partner.value == Strip(partner.s))
      && r.valueUsd == ToFloat(Field(row, "TradeValue"))
      && (Field(row, "TradeValue").Null? ==> r.valueUsd.None?)
      && r.qty == (if IsTruthy(netWeight) then ToFloat(netWeight) else ToFloat(Field(row, "qty")))
      && r.sectors != []
  {
    var code := HsCodeOf(Field(row, "cmdCode")).value;
    var period := PeriodOf(row);
    var title := StrippedOr(Field(row, "cmdDescE")).value;
    var partner := StrippedOr(PartnerOf(row)).value;
    var year, month := ParseInt(period[..4]).value, ParseInt(period[4..6]).value;
    assert ParseKept(row, code, period) == Ok(MakeRecord(row, code, year, month, title, partner));
  }

  /** `_parse_dataset`: the kept records in row order; the first raising row aborts. */
  function ParseDataset(rows: seq<JsonRow>): Result<seq<Record>> {
    Gather(ParseAll(ParseItem, rows))
  }

  /**
   * Parsing succeeds iff no row raises, and then yields exactly the records of the
   * kept rows; a failure is the first raising row's.
   */
  lemma ParseDatasetSpec(rows: seq<JsonRow>)
    ensures ParseDataset(rows).Ok? <==> forall i :: 0 <= i < |rows| ==> ParseItem(rows[i]).Ok?
    ensures ParseDataset(rows).Err? ==> exists i :: (0 <= i < |rows| && ParseItem(rows[i]).Err?
      && ParseDataset(rows).error == ParseItem(rows[i]).error
      && forall j :: 0 <= j < i ==> ParseItem(rows[j]).Ok?)
    ensures ParseDataset(rows).Ok? ==> forall x :: x in ParseDataset(rows).value <==>
      exists i :: 0 <= i < |rows| && ParseItem(rows[i]) == Ok(Some(x))
  {
    GatherSpec(ParseAll(ParseItem, rows));
  }

  /** Records keep the order of their rows: parsing two runs of rows concatenates their records. */
  lemma ParseDatasetAppend(a: seq<JsonRow>, b: seq<JsonRow>)
    requires ParseDataset(a).Ok? && ParseDataset(b).Ok?
    ensures ParseDataset(a + b) == Ok(ParseDataset(a).value + ParseDataset(b).value)
  {
    ParseAllAppend(ParseItem, a, b);
    GatherAppend(ParseAll(ParseItem, a), ParseAll(ParseItem, b));
  }

  /** The loop of `_parse_dataset`. */
  method ParseDatasetFrom(rows: seq<JsonRow>) returns (r: Result<seq<Record>>)
    ensures r == ParseDataset(rows)
  {
    r := GatherFrom(ParseItem, rows);
  }

  /* ---------- request parameters ---------- */

  /** The process environment. */
  type Env = map<string, string>

  /** `os.getenv(key, default)`. */
  function Getenv(env: Env, key: string, default: string): string {
    if key in env then env[key] else default
  }

  /** `arg or os.getenv(key, default)`. */
  function OrEnv(arg: Option<string>, env: Env, key: string, default: string): (r: string)
    ensures arg.Some? && arg.value != "" ==> r == arg.value
    ensures (arg.None? || arg.value == "") && key !in env ==> r == default
  {
    if arg.Some? && arg.value != "" then arg.value else Getenv(env, key, default)
  }

  /** The query parameters of a request. */
  type Query = map<string, string>

  /** The parameters `fetch_range` sends. */
  function FetchParams(fromPeriod: string, toPeriod: string, reporter: Option<string>, flow: Option<string>,
                       frequency: Option<string>, env: Env): Query {
    map[
      "reporter" := OrEnv(reporter, env, "COMTRADE_REPORTER", "India"),
      "flow" := OrEnv(flow, env, "COMTRADE_FLOW", "import"),
      "time_period" := fromPeriod + ":" + toPeriod,
      "frequency" := OrEnv(frequency, env, "COMTRADE_FREQ", "M"),
      "type" := "C",
      "classification" := "HS"]
  }

  /**
   * The request asks for commodity ("C") data in the HS classification over
   * `from:to`; reporter, flow and frequency default to India, import and monthly
   * when neither the caller nor the environment gives them, and the period bounds
   * can be read back from `time_period`.
   */
  lemma FetchParamsSpec(fromPeriod: string, toPeriod: string, env: Env)
    requires ':' !in fromPeriod && ':' !in toPeriod
    ensures var q := FetchParams(fromPeriod, toPeriod, None, None, None, env);
      && q.Keys == {"reporter", "flow", "time_period", "frequency", "type", "classification"}
      && q["type"] == "C" && q["classification"] == "HS"
      && ("COMTRADE_REPORTER" !in env ==> q["reporter"] == "India")
      && ("COMTRADE_FLOW" !in env ==> q["flow"] == "import")
      && ("COMTRADE_FREQ" !in env ==> q["frequency"] == "M")
      && Split(q["time_period"], ":") == [fromPeriod, toPeriod]
  {
    SplitPair(fromPeriod, ":", toPeriod);
  }

  /** An explicit non-empty argument wins over the environment. */
  lemma FetchParamsExplicit(fromPeriod: string, toPeriod: string, reporter: string, flow: string,
                            frequency: string, env: Env)
    requires reporter != "" && flow != "" && frequency != ""
    ensures var q := FetchParams(fromPeriod, toPeriod, Some(reporter), Some(flow), Some(frequency), env);
      q["reporter"] == reporter && q["flow"] == flow && q["frequency"] == frequency
  {
  }

  /* ---------- the retry schedule of `_request` ---------- */

  const MaxRetries: nat := 4
  const RetryStatus: set<int> := {429, 500, 502, 503, 504}

  /** The decoded payload, reduced to its `dataset` entry (`None` when absent or null). */
  datatype Payload = Payload(dataset: Option<seq<JsonRow>>)

  /** `payload.get("dataset") or []`. */
  function DatasetOf(p: Payload): seq<JsonRow> {
    p.dataset.GetOr([])
  }

  /**
   * What one attempt meets: a response with its status and its decoded body
   * (`None` when the body is not UTF-8 JSON), an HTTP error raised by `urlopen`,
   * or a failure to connect.
   */
  datatype Attempt = Response(status: int, body: Option<Payload>) | HttpFailure(code: int) | ConnectionFailure

  /** The server: what attempt number `n` of a request with the given query meets. */
  type Server = (Query, nat) -> Attempt

  datatype Failure = HttpStatus(code: int) | Unreachable | Undecodable | RetriesExhausted

  /** The end of a request: the payload or the raised failure, and the back-off sleeps before it. */
  datatype Outcome = Fetched(payload: Payload, sleeps: seq<nat>) | Raised(failure: Failure, sleeps: seq<nat>)

  /** What the request does after one attempt. */
  datatype Verdict = Return(payload: Payload) | Raise(failure: Failure) | Retry

  predicate Retryable(a: Attempt) {
    match a
    case Response(status, _) => status in RetryStatus
    case HttpFailure(code) => code in RetryStatus
    case ConnectionFailure => true
  }

  /** The failure an attempt that did not return raises as the last attempt. */
  function FailureOf(a: Attempt): Failure {
    match a
    case Response(status, body) => if status in RetryStatus then HttpStatus(status) else Undecodable
    case HttpFailure(code) => HttpStatus(code)
    case ConnectionFailure => Unreachable
  }

  /**
   * One attempt: a retryable status or a connection failure is retried unless it
   * was the last attempt; any other HTTP error, and an undecodable body, raises at
   * once.
   */
  function VerdictOf(a: Attempt, attempt: nat): (v: Verdict)
    requires 1 <= attempt <= MaxRetries
    ensures v.Retry? <==> attempt < MaxRetries && Retryable(a)
    ensures a.HttpFailure? && a.code !in RetryStatus ==> v == Raise(HttpStatus(a.code))
    ensures v.Raise? ==> v.failure == FailureOf(a)
    ensures v.Return? <==> a.Response? && a.status !in RetryStatus && a.body.Some?
  {
    match a
    case Response(status, body) =>
      if status in RetryStatus then HttpVerdict(status, attempt)
      else if body.None? then Raise(Undecodable)
      else Return(body.value)
    case HttpFailure(code) => HttpVerdict(code, attempt)
    case ConnectionFailure => if attempt == MaxRetries then Raise(Unreachable) else Retry
  }

  function HttpVerdict(code: int, attempt: nat): Verdict {
    if code in RetryStatus && attempt < MaxRetries then Retry else Raise(HttpStatus(code))
  }

  function Pow2(k: nat): (p: nat)
    ensures p >= 1
  {
    if k == 0 then 1 else 2 * Pow2(k - 1)
  }

  /** `min(2 ** attempt, 30)` seconds. */
  function Backoff(attempt: nat): nat {
    if Pow2(attempt) < 30 then Pow2(attempt) else 30
  }

  function WithSleeps(before: seq<nat>, o: Outcome): Outcome {
    o.(sleeps := before + o.sleeps)
  }

  /** `_request` from attempt number `attempt` on. */
  function RequestFrom(server: Server, query: Query, attempt: nat): Outcome
    requires attempt >= 1
    decreases MaxRetries + 1 - attempt
  {
    if attempt > MaxRetries then Raised(RetriesExhausted, [])
    else
      match VerdictOf(server(query, attempt), attempt)
      case Return(p) => Fetched(p, [])
      case Raise(f) => Raised(f, [])
      case Retry => WithSleeps([Backoff(attempt)], RequestFrom(server, query, attempt + 1))
  }

  /** The attempt loop of `_request`, with the sleeps it makes. */
  method Request(server: Server, query: Query) returns (r: Outcome)
    ensures r == RequestFrom(server, query, 1)
  {
    var sleeps: seq<nat> := [];
    var attempt: nat := 1;
    while attempt <= MaxRetries
      invariant 1 <= attempt <= MaxRetries + 1
      invariant RequestFrom(server, query, 1) == WithSleeps(sleeps, RequestFrom(server, query, attempt))
    {
      var verdict := VerdictOf(server(query, attempt), attempt);
      if verdict.Return? {
        return Fetched(verdict.payload, sleeps);
      } else if verdict.Raise? {
        return Raised(verdict.failure, sleeps);
      }
      RetryStep(server, query, attempt, sleeps);
      sleeps := sleeps + [Backoff(attempt)];
      attempt := attempt + 1;
    }
    return Raised(RetriesExhausted, sleeps);
  }

  /** A retried attempt adds its back-off sleep and moves on to the next attempt. */
  lemma RetryStep(server: Server, query: Query, attempt: nat, sleeps: seq<nat>)
    requires 1 <= attempt <= MaxRetries && VerdictOf(server(query, attempt), attempt).Retry?
    ensures WithSleeps(sleeps, RequestFrom(server, query, attempt)) ==
      WithSleeps(sleeps + [Backoff(attempt)], RequestFrom(server, query, attempt + 1))
  {
    var next := RequestFrom(server, query, attempt + 1);
    assert (sleeps + [Backoff(attempt)]) + next.sleeps == sleeps + ([Backoff(attempt)] + next.sleeps);
  }

  /**
   * From attempt `a` on, the request makes attempts `a .. a + |sleeps|`, never
   * past attempt `MaxRetries`: every attempt but the last was retried, after
   * sleeping `Backoff` of its number.
   */
  lemma {:induction false} RequestSleeps(server: Server, query: Query, a: nat)
    requires 1 <= a <= MaxRetries
    ensures var r := RequestFrom(server, query, a);
      && a + |r.sleeps| <= MaxRetries
      && (forall k :: 0 <= k < |r.sleeps| ==> r.sleeps[k] == Backoff(a + k))
      && (forall k :: a <= k < a + |r.sleeps| ==> VerdictOf(server(query, k), k).Retry?)
    decreases MaxRetries - a
  {
    var r := RequestFrom(server, query, a);
    if VerdictOf(server(query, a), a).Retry? {
      var next := RequestFrom(server, query, a + 1);
      RequestSleeps(server, query, a + 1);
      assert r.sleeps == [Backoff(a)] + next.sleeps;
      forall k | 0 <= k < |r.sleeps| ensures r.sleeps[k] == Backoff(a + k) {
        if k > 0 {
          assert r.sleeps[k] == next.sleeps[k - 1];
        }
      }
      forall k | a <= k < a + |r.sleeps| ensures VerdictOf(server(query, k), k).Retry? {
        if k > a {
          assert a + 1 <= k < a + 1 + |next.sleeps|;
        }
      }
    } else {
      assert r.sleeps == [];
    }
  }

  /** The last attempt decides: its payload is returned, or its failure raised. */
  lemma {:induction false} RequestLast(server: Server, query: Query, a: nat)
    requires 1 <= a <= MaxRetries
    ensures var r := RequestFrom(server, query, a);
      var last := a + |r.sleeps|;
      && last <= MaxRetries
      && (r.Fetched? ==> VerdictOf(server(query, last), last) == Return(r.payload))
      && (r.Raised? ==> VerdictOf(server(query, last), last) == Raise(r.failure))
    decreases MaxRetries - a
  {
    if VerdictOf(server(query, a), a).Retry? {
      RequestLast(server, query, a + 1);
    }
  }

  /**
   * `_request` makes at most `MaxRetries` attempts with sleeps of 2, 4 and 8
   * seconds between them, never reaches its final "failed after retries" raise,
   * and ends as the last attempt decides.
   */
  lemma RequestSchedule(server: Server, query: Query)
    ensures var r := RequestFrom(server, query, 1);
      && |r.sleeps| < MaxRetries
      && r.sleeps <= [2, 4, 8]
      && !(r.Raised? && r.failure == RetriesExhausted)
      && (forall k :: 1 <= k <= |r.sleeps| ==> Retryable(server(query, k)))
      && (r.Raised? ==> r.failure == FailureOf(server(query, |r.sleeps| + 1)))
  {
    RequestSleeps(server, query, 1);
    RequestLast(server, query, 1);
    var r := RequestFrom(server, query, 1);
    assert Backoff(1) == 2 && Backoff(2) == 4 && Backoff(3) == 8;
    assert r.sleeps == [2, 4, 8][..|r.sleeps|];
  }

  /** An HTTP error with a status that is not retryable is raised on the first attempt, without a sleep. */
  lemma RequestFailsFast(server: Server, query: Query)
    requires server(query, 1).HttpFailure? && server(query, 1).code !in RetryStatus
    ensures RequestFrom(server, query, 1) == Raised(HttpStatus(server(query, 1).code), [])
  {
  }

  /** When every attempt meets a retryable failure, the request gives up after the fourth, having slept 2, 4 and 8 seconds. */
  lemma RequestGivesUp(server: Server, query: Query)
    requires forall k :: 1 <= k <= MaxRetries ==> Retryable(server(query, k))
    ensures RequestFrom(server, query, 1) == Raised(FailureOf(server(query, MaxRetries)), [2, 4, 8])
  {
    assert Retryable(server(query, 1)) && Retryable(server(query, 2)) && Retryable(server(query, 3)) && Retryable(server(query, 4));
    assert Backoff(1) == 2 && Backoff(2) == 4 && Backoff(3) == 8;
  }

  function FailureMessage(f: Failure): string {
    match f
    case HttpStatus(code) => "HTTP Error " + FormatInt(code, 0)
    case Unreachable => "urlopen error"
    case Undecodable => "undecodable payload"
    case RetriesExhausted => "Comtrade API request failed after retries"
  }

  /** `fetch_range`: the request with the parameters above, then the parsed dataset. */
  function FetchRange(fromPeriod: string, toPeriod: string, reporter: Option<string>, flow: Option<string>,
                      frequency: Option<string>, env: Env, server: Server): Result<seq<Record>> {
    var query := FetchParams(fromPeriod, toPeriod, reporter, flow, frequency, env);
    match RequestFrom(server, query, 1)
    case Raised(f, _) => Err(FailureMessage(f))
    case Fetched(p, _) => ParseDataset(DatasetOf(p))
  }

  /** `fetch_range` succeeds iff the request returns a payload whose dataset parses. */
  lemma FetchRangeSpec(fromPeriod: string, toPeriod: string, reporter: Option<string>, flow: Option<string>,
                       frequency: Option<string>, env: Env, server: Server)
    ensures var r := RequestFrom(server, FetchParams(fromPeriod, toPeriod, reporter, flow, frequency, env), 1);
      FetchRange(fromPeriod, toPeriod, reporter, flow, frequency, env, server).Ok? <==>
        r.Fetched? && forall i :: 0 <= i < |DatasetOf(r.payload)| ==> ParseItem(DatasetOf(r.payload)[i]).Ok?
    ensures var r := RequestFrom(server, FetchParams(fromPeriod, toPeriod, reporter, flow, frequency, env), 1);
      r.Fetched? && r.payload.dataset.None? ==> FetchRange(fromPeriod, toPeriod, reporter, flow, frequency, env, server) == Ok([])
  {
    var r := RequestFrom(server, FetchParams(fromPeriod, toPeriod, reporter, flow, frequency, env), 1);
    if r.Fetched? {
      ParseDatasetSpec(DatasetOf(r.payload));
    }
  }

  method FetchRangeFrom(fromPeriod: string, toPeriod: string, reporter: Option<string>, flow: Option<string>,
                        frequency: Option<string>, env: Env, server: Server) returns (r: Result<seq<Record>>)
    ensures r == FetchRange(fromPeriod, toPeriod, reporter, flow, frequency, env, server)
  {
    var query := FetchParams(fromPeriod, toPeriod, reporter, flow, frequency, env);
    var outcome := Request(server, query);
    if outcome.Raised? {
      return Err(FailureMessage(outcome.failure));
    }
    r := ParseDatasetFrom(DatasetOf(outcome.payload));
  }

  /* ---------- loading into the database ---------- */

  /** The product a record upserts. */
  function InputOf(r: Record): ProductInput {
    ProductInput(r.hsCode, r.title, r.description, r.sectors, r.capexMin, r.capexMax)
  }

  /** The monthly row a record inserts: the INR value and the rate are not given. */
  function RowOf(r: Record): MonthlyRow {
    MonthlyRow(r.hsCode, r.year, r.month, r.valueUsd, None, None, r.qty, r.partner)
  }

  function Inputs(records: seq<Record>): (r: seq<ProductInput>)
    ensures |r| == |records|
  {
    if records == [] then [] else Inputs(records[..|records| - 1]) + [InputOf(records[|records| - 1])]
  }

  function MonthlyRows(records: seq<Record>): (r: seq<MonthlyRow>)
    ensures |r| == |records|
  {
    if records == [] then [] else MonthlyRows(records[..|records| - 1]) + [RowOf(records[|records| - 1])]
  }

  /** The counts `load` returns: at most one product per record, and one when there is a record. */
  lemma LoadCounts(records: seq<Record>)
    ensures |CodesOf(Inputs(records))| <= |records|
    ensures records != [] ==> |CodesOf(Inputs(records))| >= 1
  {
    CodesOfBounds(Inputs(records));
  }

  /** `load`: a code not seen before is upserted, every record inserted; the result is
      the number of distinct codes and of records. */
  method Load(db: Database, records: seq<Record>) returns (products: nat, monthlyRows: nat)
    modifies db
    ensures db.products == UpsertFirsts(old(db.products), Inputs(records))
    ensures db.monthly == InsertAllIn(old(db.monthly), MonthlyRows(records))
    ensures db.nullPartner == old(db.nullPartner) + NullPartnerRows(MonthlyRows(records))
    ensures db.baselines == old(db.baselines) && db.progress == old(db.progress)
    ensures products == |CodesOf(Inputs(records))| && monthlyRows == |records|
  {
    ghost var products0, monthly0, null0 := db.products, db.monthly, db.nullPartner;
    ghost var inputs: seq<ProductInput> := [];
    ghost var rows: seq<MonthlyRow> := [];
    var seen: set<string> := {};
    monthlyRows := 0;
    while monthlyRows < |records|
      invariant 0 <= monthlyRows <= |records|
      invariant inputs == Inputs(records[..monthlyRows]) && rows == MonthlyRows(records[..monthlyRows])
      invariant seen == CodesOf(inputs)
      invariant db.products == UpsertFirsts(products0, inputs)
      invariant db.monthly == InsertAllIn(monthly0, rows)
      invariant db.nullPartner == null0 + NullPartnerRows(rows)
      invariant db.baselines == old(db.baselines) && db.progress == old(db.progress)
    {
      var record := records[monthlyRows];
      RecordsStep(records, monthlyRows);
      LoadStep(products0, monthly0, null0, inputs, rows, InputOf(record), RowOf(record));
      WriteRecord(db, record, record.hsCode !in seen);
      seen := seen + {record.hsCode};
      inputs := inputs + [InputOf(record)];
      rows := rows + [RowOf(record)];
      monthlyRows := monthlyRows + 1;
    }
    assert records[..monthlyRows] == records;
    products := |seen|;
  }

  /** One record of the load loop: the product upsert when its code is new, then the monthly insert. */
  method WriteRecord(db: Database, record: Record, isNew: bool)
    modifies db
    ensures db.products == if isNew then UpsertProductIn(old(db.products), InputOf(record)) else old(db.products)
    ensures db.monthly == InsertMonthlyIn(old(db.monthly), RowOf(record))
    ensures db.nullPartner == InsertNullPartnerIn(old(db.nullPartner), RowOf(record))
    ensures db.baselines == old(db.baselines) && db.progress == old(db.progress)
  {
    if isNew {
      db.UpsertProduct(InputOf(record));
    }
    db.InsertMonthly(RowOf(record));
  }

  lemma RecordsStep(records: seq<Record>, i: int)
    requires 0 <= i < |records|
    ensures Inputs(records[..i + 1]) == Inputs(records[..i]) + [InputOf(records[i])]
    ensures MonthlyRows(records[..i + 1]) == MonthlyRows(records[..i]) + [RowOf(records[i])]
  {
    assert records[..i + 1][..i] == records[..i];
  }

  /* ---------- run ---------- */

  /** The summary `run` returns. */
  datatype Summary = Summary(products: nat, monthlyRows: nat, source: string)

  /** The records `run` loads: the fetched ones, or the CSV fallback's when the fetch raises. */
  function RunRecords(fetched: Result<seq<Record>>, fallback: seq<Record>): seq<Record> {
    if fetched.Ok? then fetched.value else fallback
  }

  function SourceTag(fetched: Result<seq<Record>>): string {
    if fetched.Ok? then "comtrade" else "csv_fallback"
  }

  /**
   * `run`: fetch from the API with the default parameters and fall back to the CSV
   * records (`fallback`, the rows `_load_csv_fallback` reads) when the fetch raises;
   * no records means zero counts and no writes, otherwise `load`'s counts.
   */
  method Run(db: Database, fromPeriod: string, toPeriod: string, env: Env, server: Server, fallback: seq<Record>)
    returns (r: Summary)
    modifies db
    ensures var fetched := FetchRange(fromPeriod, toPeriod, None, None, None, env, server);
      var records := RunRecords(fetched, fallback);
      && r.source == SourceTag(fetched)
      && (records == [] ==> r == Summary(0, 0, r.source) && unchanged(db))
      && (records != [] ==>
        && r == Summary(|CodesOf(Inputs(records))|, |records|, r.source)
        && db.products == UpsertFirsts(old(db.products), Inputs(records))
        && db.monthly == InsertAllIn(old(db.monthly), MonthlyRows(records))
        && db.nullPartner == old(db.nullPartner) + NullPartnerRows(MonthlyRows(records))
        && db.baselines == old(db.baselines) && db.progress == old(db.progress))
  {
    var fetched := FetchRangeFrom(fromPeriod, toPeriod, None, None, None, env, server);
    var records := if fetched.Ok? then fetched.value else fallback;
    var source := if fetched.Ok? then "comtrade" else "csv_fallback";
    if records == [] {
      return Summary(0, 0, source);
    }
    var products, monthlyRows := Load(db, records);
    return Summary(products, monthlyRows, source);
  }
}
