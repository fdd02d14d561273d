/**
 * Normalisation shared by the ingestion jobs: canonical HS codes, keyword-based
 * sector inference, brace-list sector parsing and the USD pass-through.
 */
module Normalize {
  import opened Wrappers
  import opened Strings

  /* ---------- HS codes ---------- */

  /** The HS subheading level (six digits) used unless a caller asks otherwise. */
  const DefaultGranularity: int := 6

  /** All runs of decimal digits of `s`, concatenated in order. */
  function HsDigits(s: string): (d: string)
    ensures AllDigits(d) && |d| <= |s|
    ensures forall c :: c in d <==> c in s && IsDigit(c)
  {
    if s == [] then [] else (if IsDigit(s[0]) then [s[0]] else []) + HsDigits(s[1..])
  }

  /** Removing the non-digits of a concatenation removes them from each part, keeping the order. */
  lemma {:induction false} HsDigitsAppend(a: string, b: string)
    ensures HsDigits(a + b) == HsDigits(a) + HsDigits(b)
    decreases |a|
  {
    if a != [] {
      assert (a + b)[1..] == a[1..] + b;
      HsDigitsAppend(a[1..], b);
    } else {
      assert a + b == b;
    }
  }

  /** A string of digits is its own digit runs. */
  lemma {:induction false} HsDigitsOfDigits(s: string)
    requires AllDigits(s)
    ensures HsDigits(s) == s
  {
    if s != [] {
      HsDigitsOfDigits(s[1..]);
      assert s == [s[0]] + s[1..];
    }
  }

  /** `str.ljust(width, "0")`. */
  function LJustZeros(s: string, width: int): string {
    if |s| < width then s + Zeros(width - |s|) else s
  }

  /** The digits right-padded with `0` to `granularity`, then cut to it. */
  function PadCut(digits: string, granularity: int): (r: string)
    requires AllDigits(digits)
    ensures granularity >= 0 ==> |r| == granularity && AllDigits(r)
    ensures 0 <= granularity <= |digits| ==> r == digits[..granularity]
    ensures granularity > |digits| ==> r == digits + Zeros(granularity - |digits|)
  {
    var padded := LJustZeros(digits, granularity);
    assert AllDigits(padded) by {
      if |digits| < granularity {
        var z := Zeros(granularity - |digits|);
        assert forall i :: 0 <= i < |padded| ==> padded[i] == if i < |digits| then digits[i] else z[i - |digits|];
      }
    }
    SliceTo(padded, granularity)
  }

  /**
   * `canonical_hs_code`: no code for a missing or empty input or one without
   * digits; otherwise the digit runs, right-padded with `0`, cut to
   * `granularity` characters (Python slicing, so a negative granularity
   * counts from the end).
   */
  function CanonicalHsCode(raw: Option<string>, granularity: int): (r: Option<string>)
    ensures r.None? <==> raw.None? || raw.value == "" || HsDigits(raw.value) == ""
    ensures r.Some? ==> r.value == PadCut(HsDigits(raw.value), granularity)
  {
    if raw.None? || raw.value == "" then None
    else
      var digits := HsDigits(raw.value);
      if digits == "" then None
      else Some(PadCut(digits, granularity))
  }

  /** For a positive granularity, canonicalising a canonical code changes nothing. */
  lemma CanonicalHsCodeIdempotent(raw: Option<string>, granularity: int)
    requires granularity >= 1 && CanonicalHsCode(raw, granularity).Some?
    ensures CanonicalHsCode(CanonicalHsCode(raw, granularity), granularity)
            == CanonicalHsCode(raw, granularity)
  {
    var code := CanonicalHsCode(raw, granularity).value;
    assert |code| == granularity && AllDigits(code);
    HsDigitsOfDigits(code);
    assert code[..granularity] == code;
  }

  /* ---------- sectors ---------- */

  /** `_SECTOR_KEYWORDS`, in its declaration order. */
  const SectorKeywords: seq<(string, seq<string>)> := [
    ("electronics", ["semiconductor", "circuit", "chip", "battery", "converter", "led"]),
    ("industrial", ["machinery", "reactor", "pump", "compressor", "industrial"]),
    ("automotive", ["vehicle", "automotive", "motor", "engine"]),
    ("metals", ["steel", "valve", "fitting", "aluminium", "metal"]),
    ("energy", ["energy", "solar", "battery", "power"]),
    ("instruments", ["analyzer", "instrument", "meter", "sensor"])
  ]

  const DefaultSector: string := "industrial"

  /** One positional argument of `infer_sectors`: `None`, a list/tuple/set of
      items (a set in its iteration order), or any other value (by its text). */
  datatype TextBlock = Missing | Plain(text: string) | Many(items: seq<Option<string>>)

  /** The truthy items of a list, in order. */
  function Truthy(items: seq<Option<string>>): seq<string> {
    if items == [] then []
    else
      var last := items[|items| - 1];
      Truthy(items[..|items| - 1]) + (if last.Some? && last.value != "" then [last.value] else [])
  }

  function BlockSnippets(b: TextBlock): seq<string> {
    match b
    case Missing => []
    case Plain(t) => [t]
    case Many(items) => Truthy(items)
  }

  /** The `snippets` list built from all blocks. */
  function Snippets(blocks: seq<TextBlock>): seq<string> {
    if blocks == [] then []
    else Snippets(blocks[..|blocks| - 1]) + BlockSnippets(blocks[|blocks| - 1])
  }

  /** The lower-cased, space-joined text that keywords are searched in. */
  function Haystack(blocks: seq<TextBlock>): string {
    Lower(Join(Snippets(blocks), " "))
  }

  predicate AnyKeyword(keywords: seq<string>, haystack: string) {
    exists k :: k in keywords && Contains(haystack, k)
  }

  /** The sectors of `table` one of whose keywords occurs in `haystack`, in table order. */
  function Matching(table: seq<(string, seq<string>)>, haystack: string): seq<string> {
    if table == [] then []
    else
      var last := table[|table| - 1];
      Matching(table[..|table| - 1], haystack) + (if AnyKeyword(last.1, haystack) then [last.0] else [])
  }

  /** The sectors `infer_sectors` returns for `blocks`. */
  function InferredSectors(blocks: seq<TextBlock>): (r: seq<string>)
    ensures r != []
  {
    var m := Matching(SectorKeywords, Haystack(blocks));
    if m == [] then [DefaultSector] else m
  }

  /** `infer_sectors(*blocks)`: collects the snippets, then tests every table entry. */
  method InferSectors(blocks: seq<TextBlock>) returns (sectors: seq<string>)
    ensures sectors == InferredSectors(blocks)
  {
    var snippets := CollectSnippets(blocks);
    var haystack := Lower(Join(snippets, " "));
    sectors := MatchSectors(SectorKeywords, haystack);
    if sectors == [] {
      sectors := sectors + [DefaultSector];
    }
  }

  /** The first loop of `infer_sectors`: every block's snippets, in order. */
  method CollectSnippets(blocks: seq<TextBlock>) returns (snippets: seq<string>)
    ensures snippets == Snippets(blocks)
  {
    snippets := [];
    var i := 0;
    while i < |blocks|
      invariant 0 <= i <= |blocks|
      invariant snippets == Snippets(blocks[..i])
    {
      assert blocks[..i + 1][..i] == blocks[..i];
      match blocks[i] {
        case Missing =>
        case Plain(t) =>
          snippets := snippets + [t];
        case Many(items) =>
          snippets := AppendTruthy(snippets, items);
      }
      i := i + 1;
    }
    assert blocks[..i] == blocks;
  }

  /** The inner loop over a block of several items: the non-empty ones are appended. */
  method AppendTruthy(snippets0: seq<string>, items: seq<Option<string>>) returns (snippets: seq<string>)
    ensures snippets == snippets0 + Truthy(items)
  {
    snippets := snippets0;
    var j := 0;
    while j < |items|
      invariant 0 <= j <= |items|
      invariant snippets == snippets0 + Truthy(items[..j])
    {
      assert items[..j + 1][..j] == items[..j];
      if items[j].Some? && items[j].value != "" {
        snippets := snippets + [items[j].value];
      }
      j := j + 1;
    }
    assert items[..j] == items;
  }

  /** The second loop of `infer_sectors`: the entries with a keyword in the text, in table order. */
  method MatchSectors(table: seq<(string, seq<string>)>, haystack: string) returns (sectors: seq<string>)
    ensures sectors == Matching(table, haystack)
  {
    sectors := [];
    var t := 0;
    while t < |table|
      invariant 0 <= t <= |table|
      invariant sectors == Matching(table[..t], haystack)
    {
      assert table[..t + 1][..t] == table[..t];
      if AnyKeyword(table[t].1, haystack) {
        sectors := sectors + [table[t].0];
      }
      t := t + 1;
    }
    assert table[..t] == table;
  }

  /** A name is in `Matching` exactly when its table entry has a keyword in the text;
      the names come out in strictly increasing table positions, hence without repeats. */
  lemma {:induction false} MatchingSpec(table: seq<(string, seq<string>)>, haystack: string)
    ensures forall x :: x in Matching(table, haystack) <==>
      exists j :: 0 <= j < |table| && table[j].0 == x && AnyKeyword(table[j].1, haystack)
    ensures |Matching(table, haystack)| <= |table|
    decreases |table|
  {
    if table != [] {
      MatchingSpec(table[..|table| - 1], haystack);
      var front := table[..|table| - 1];
      forall x ensures x in Matching(table, haystack) <==>
        exists j :: 0 <= j < |table| && table[j].0 == x && AnyKeyword(table[j].1, haystack)
      {
        if x in Matching(front, haystack) {
          var j :| 0 <= j < |front| && front[j].0 == x && AnyKeyword(front[j].1, haystack);
          assert table[j] == front[j];
        }
        if exists j :: 0 <= j < |table| && table[j].0 == x && AnyKeyword(table[j].1, haystack) {
          var j :| 0 <= j < |table| && table[j].0 == x && AnyKeyword(table[j].1, haystack);
          if j < |front| {
            assert front[j] == table[j];
          }
        }
      }
    }
  }

  /** The table position of a sector name. */
  function SectorIndex(name: string): int {
    if name == "electronics" then 0
    else if name == "industrial" then 1
    else if name == "automotive" then 2
    else if name == "metals" then 3
    else if name == "energy" then 4
    else if name == "instruments" then 5
    else -1
  }

  /** Each table entry's name sits at its own position. */
  lemma SectorIndexOfTable()
    ensures forall j :: 0 <= j < |SectorKeywords| ==> SectorIndex(SectorKeywords[j].0) == j
  {
  }

  /** `Matching` over a prefix of the table lists sectors in strictly increasing table position. */
  lemma {:induction false} MatchingOrdered(n: nat, haystack: string)
    requires n <= |SectorKeywords|
    ensures forall i, j :: 0 <= i < j < |Matching(SectorKeywords[..n], haystack)| ==>
      SectorIndex(Matching(SectorKeywords[..n], haystack)[i])
        < SectorIndex(Matching(SectorKeywords[..n], haystack)[j])
    ensures forall i :: 0 <= i < |Matching(SectorKeywords[..n], haystack)| ==>
      0 <= SectorIndex(Matching(SectorKeywords[..n], haystack)[i]) < n
  {
    if n > 0 {
      MatchingOrdered(n - 1, haystack);
      SectorIndexOfTable();
      var prev := Matching(SectorKeywords[..n - 1], haystack);
      var m := Matching(SectorKeywords[..n], haystack);
      assert SectorKeywords[..n][..n - 1] == SectorKeywords[..n - 1];
      var tail := if AnyKeyword(SectorKeywords[n - 1].1, haystack) then [SectorKeywords[n - 1].0] else [];
      assert m == prev + tail;
      assert forall i :: 0 <= i < |tail| ==> SectorIndex(tail[i]) == n - 1;
    }
  }

  /** Nothing matches exactly when no entry has a keyword in the text. */
  lemma {:induction false} MatchingEmptyIff(table: seq<(string, seq<string>)>, haystack: string)
    ensures Matching(table, haystack) == [] <==>
      forall j :: 0 <= j < |table| ==> !AnyKeyword(table[j].1, haystack)
  {
    if table != [] {
      var front := table[..|table| - 1];
      MatchingEmptyIff(front, haystack);
      assert forall j :: 0 <= j < |front| ==> front[j] == table[j];
    }
  }

  /**
   * What `infer_sectors` promises: never empty; a table sector is included iff one
   * of its keywords occurs in the lower-cased joined text, and `industrial` alone
   * when none does; no name twice, in table order.
   */
  lemma InferredSectorsSpec(blocks: seq<TextBlock>)
    ensures var r := InferredSectors(blocks);
      && r != []
      && (forall x :: x in r <==>
            (exists j :: 0 <= j < |SectorKeywords| && SectorKeywords[j].0 == x
                         && AnyKeyword(SectorKeywords[j].1, Haystack(blocks)))
            || (x == DefaultSector
                && forall j :: 0 <= j < |SectorKeywords| ==> !AnyKeyword(SectorKeywords[j].1, Haystack(blocks))))
      && (forall i, j :: 0 <= i < j < |r| ==> SectorIndex(r[i]) < SectorIndex(r[j]))
  {
    var h := Haystack(blocks);
    MatchingSpec(SectorKeywords, h);
    MatchingOrdered(|SectorKeywords|, h);
    MatchingEmptyIff(SectorKeywords, h);
    assert SectorKeywords[..|SectorKeywords|] == SectorKeywords;
  }

  /** Text with no keyword at all is classified as `industrial` alone. */
  lemma NoKeywordIsIndustrial(blocks: seq<TextBlock>)
    requires forall j :: 0 <= j < |SectorKeywords| ==> !AnyKeyword(SectorKeywords[j].1, Haystack(blocks))
    ensures InferredSectors(blocks) == [DefaultSector]
  {
    MatchingEmptyIff(SectorKeywords, Haystack(blocks));
  }

  /* ---------- brace lists ---------- */

  /** The stripped, non-empty segments, in order. */
  function Segments(parts: seq<string>): seq<string> {
    if parts == [] then []
    else
      var s := Strip(parts[|parts| - 1]);
      Segments(parts[..|parts| - 1]) + (if s != "" then [s] else [])
  }

  /** `parse_csv_sectors` (and `_parse_sectors` in the API layer): one enclosing pair of
      braces removed, split on commas, segments trimmed, empty ones dropped. */
  function ParseCsvSectors(raw: Option<string>): (r: seq<string>)
  {
    if raw.None? || raw.value == "" then []
    else
      var cleaned := Strip(raw.value);
      var inner := if StartsWith(cleaned, "{") && EndsWith(cleaned, "}")
                   then cleaned[1..|cleaned| - 1] else cleaned;
      Segments(Split(inner, ","))
  }

  /** A clean sector name: non-empty, trimmed, without a comma. */
  predicate CleanName(s: string) {
    s != "" && Strip(s) == s && ',' !in s
  }

  lemma StrippedClean(last: string)
    requires ',' !in last && Strip(last) != ""
    ensures CleanName(Strip(last))
  {
    StripIdempotent(last);
    StripKeepsAbsence(last, ',');
  }

  lemma {:induction false} SegmentsClean(parts: seq<string>)
    requires forall k :: 0 <= k < |parts| ==> ',' !in parts[k]
    ensures forall k :: 0 <= k < |Segments(parts)| ==> CleanName(Segments(parts)[k])
  {
    if parts != [] {
      var front := parts[..|parts| - 1];
      var last := parts[|parts| - 1];
      SegmentsClean(front);
      var s := Strip(last);
      if s != "" {
        StrippedClean(last);
      }
      var tail := if s != "" then [s] else [];
      assert forall k :: 0 <= k < |tail| ==> CleanName(tail[k]);
      assert Segments(parts) == Segments(front) + tail;
    }
  }

  /** Every parsed sector is a non-empty, trimmed name without a comma. */
  lemma ParseCsvSectorsClean(raw: Option<string>)
    ensures forall k :: 0 <= k < |ParseCsvSectors(raw)| ==> CleanName(ParseCsvSectors(raw)[k])
  {
    if raw.Some? && raw.value != "" {
      var cleaned := Strip(raw.value);
      var inner := if StartsWith(cleaned, "{") && EndsWith(cleaned, "}")
                   then cleaned[1..|cleaned| - 1] else cleaned;
      SplitPartsLackSeparator(inner, ",");
      SegmentsClean(Split(inner, ","));
    }
  }

  lemma {:induction false} SegmentsOfClean(xs: seq<string>)
    requires forall k :: 0 <= k < |xs| ==> xs[k] != "" && Strip(xs[k]) == xs[k]
    ensures Segments(xs) == xs
  {
    if xs != [] {
      var front, last := xs[..|xs| - 1], xs[|xs| - 1];
      assert forall k :: 0 <= k < |front| ==> front[k] == xs[k];
      SegmentsOfClean(front);
      assert Strip(last) == last && last != "";
      assert Segments(xs) == Segments(front) + [last];
      LastSplit(xs);
    }
  }

  /** A non-empty sequence is its front followed by its last element. */
  lemma LastSplit<T>(xs: seq<T>)
    requires xs != []
    ensures xs == xs[..|xs| - 1] + [xs[|xs| - 1]]
  {
  }

  lemma BracedLiteral(lit: string, body: string)
    requires lit == "{" + body + "}"
    ensures Strip(lit) == lit && StartsWith(lit, "{") && EndsWith(lit, "}")
    ensures lit[1..|lit| - 1] == body
  {
    assert lit[0] == '{' && lit[|lit| - 1] == '}';
    StripUnpadded(lit);
  }

  /** The segments of a braced literal are the segments of its body. */
  lemma BracedSegments(lit: string, body: string)
    requires lit == "{" + body + "}"
    ensures ParseCsvSectors(Some(lit)) == Segments(Split(body, ","))
  {
    BracedLiteral(lit, body);
  }

  /** A Postgres array literal `{a,b,...}` of clean names parses back to the names. */
  lemma ParseCsvSectorsRoundTrip(xs: seq<string>)
    requires forall k :: 0 <= k < |xs| ==> CleanName(xs[k])
    ensures ParseCsvSectors(Some("{" + Join(xs, ",") + "}")) == xs
  {
    var body := Join(xs, ",");
    BracedSegments("{" + body + "}", body);
    SegmentsOfJoin(xs);
  }

  /** Splitting the comma-joined clean names and trimming the segments gives the names back. */
  lemma SegmentsOfJoin(xs: seq<string>)
    requires forall k :: 0 <= k < |xs| ==> CleanName(xs[k])
    ensures Segments(Split(Join(xs, ","), ",")) == xs
  {
    if xs == [] {
      assert Split("", ",") == [""];
    } else {
      SplitJoin(xs, ",");
      SegmentsOfClean(xs);
    }
  }

  /* ---------- currency ---------- */

  /** `ensure_usd`: values are already in USD, so this is the identity, `None` included. */
  function EnsureUsd(value: Option<real>): (r: Option<real>)
    ensures r == value
  {
    value
  }
}
