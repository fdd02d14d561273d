/**
 * The Python `str` operations the core relies on: `strip` with Python's
 * whitespace set; `lower`, `int(...)` and `float(...)` restricted to ASCII
 * letters and digits; `startswith`/`endswith`, `in` (substring), `split`,
 * `join` and zero-padded `{n:0Wd}` formatting.
 */
module Strings {
  import opened Wrappers

  /* ---------- characters ---------- */

  predicate IsDigit(c: char) { '0' <= c <= '9' }

  /**
   * The characters for which Python's `str.isspace` holds, and so the ones
   * `strip()` removes: the ASCII controls 9-13 and 28-31, the space, U+0085,
   * U+00A0, U+1680, U+2000-U+200A, U+2028, U+2029, U+202F, U+205F and U+3000.
   */
  predicate IsSpace(c: char) {
    var n := c as int;
    || n == 0x20 || (0x09 <= n <= 0x0D) || (0x1C <= n <= 0x1F) || n == 0x85 || n == 0xA0
    || n == 0x1680 || (0x2000 <= n <= 0x200A) || n == 0x2028 || n == 0x2029 || n == 0x202F
    || n == 0x205F || n == 0x3000
  }

  lemma DigitNotSpace(c: char)
    requires IsDigit(c)
    ensures !IsSpace(c)
  {
  }

  predicate AllDigits(s: string) { forall i :: 0 <= i < |s| ==> IsDigit(s[i]) }

  function LowerChar(c: char): char {
    if 'A' <= c <= 'Z' then (c as int + 32) as char else c
  }

  /** `s.lower()` for ASCII letters. */
  function Lower(s: string): (r: string)
    ensures |r| == |s| && forall i :: 0 <= i < |s| ==> r[i] == LowerChar(s[i])
  {
    seq(|s|, i requires 0 <= i < |s| => LowerChar(s[i]))
  }

  function UpperChar(c: char): char {
    if 'a' <= c <= 'z' then (c as int - 32) as char else c
  }

  /** `s.upper()` for ASCII letters. */
  function Upper(s: string): (r: string)
    ensures |r| == |s| && forall i :: 0 <= i < |s| ==> r[i] == UpperChar(s[i])
  {
    seq(|s|, i requires 0 <= i < |s| => UpperChar(s[i]))
  }

  /* ---------- strip ---------- */

  function LStrip(s: string): (r: string)
    ensures |r| <= |s| && r == s[|s| - |r|..]
    ensures r == [] || !IsSpace(r[0])
    ensures forall i :: 0 <= i < |s| - |r| ==> IsSpace(s[i])
  {
    if |s| > 0 && IsSpace(s[0]) then LStrip(s[1..]) else s
  }

  function RStrip(s: string): (r: string)
    ensures |r| <= |s| && r == s[..|r|]
    ensures r == [] || !IsSpace(r[|r| - 1])
    ensures forall i :: |r| <= i < |s| ==> IsSpace(s[i])
  {
    if |s| > 0 && IsSpace(s[|s| - 1]) then RStrip(s[..|s| - 1]) else s
  }

  /** `s.strip()`: the result has no surrounding white space and is a slice of `s`. */
  function Strip(s: string): (r: string)
    ensures |r| <= |s|
    ensures r == [] || (!IsSpace(r[0]) && !IsSpace(r[|r| - 1]))
  {
    RStrip(LStrip(s))
  }

  /** `strip()` only removes characters: a character absent from `s` is absent from the result. */
  lemma StripKeepsAbsence(s: string, c: char)
    requires c !in s
    ensures c !in Strip(s)
  {
    var l := LStrip(s);
    assert l == s[|s| - |l|..];
    assert c !in l;
    assert RStrip(l) == l[..|RStrip(l)|];
  }

  /** A string without surrounding white space is its own `strip()`. */
  lemma StripUnpadded(s: string)
    requires s == [] || (!IsSpace(s[0]) && !IsSpace(s[|s| - 1]))
    ensures Strip(s) == s
  {
  }

  /** `strip()` is idempotent. */
  lemma StripIdempotent(s: string)
    ensures Strip(Strip(s)) == Strip(s)
  {
    StripUnpadded(Strip(s));
  }

  /* ---------- prefixes, substrings ---------- */

  predicate StartsWith(s: string, p: string) { |p| <= |s| && s[..|p|] == p }

  predicate EndsWith(s: string, p: string) { |p| <= |s| && s[|s| - |p|..] == p }

  /** `p` occurs in `s` at index `i`. */
  predicate MatchAt(s: string, p: string, i: int) {
    0 <= i && i + |p| <= |s| && s[i..i + |p|] == p
  }

  /** Python's `p in s` on strings. */
  predicate Contains(s: string, p: string) {
    exists i :: 0 <= i <= |s| && MatchAt(s, p, i)
  }

  /* ---------- split / join ---------- */

  /** The first index at or after `i` where `sep` occurs in `s`. */
  function FindFrom(s: string, sep: string, i: nat): (r: Option<nat>)
    requires |sep| > 0 && i <= |s|
    ensures r.Some? ==> i <= r.value && r.value + |sep| <= |s| && MatchAt(s, sep, r.value)
    ensures r.Some? ==> forall j :: i <= j < r.value ==> !MatchAt(s, sep, j)
    ensures r.None? ==> forall j :: i <= j <= |s| ==> !MatchAt(s, sep, j)
    decreases |s| - i
  {
    if i + |sep| > |s| then None
    else if s[i..i + |sep|] == sep then Some(i)
    else FindFrom(s, sep, i + 1)
  }

  /** `s.split(sep)` for a non-empty separator: never an empty list. */
  function Split(s: string, sep: string): (parts: seq<string>)
    requires |sep| > 0
    ensures |parts| >= 1
    decreases |s|
  {
    match FindFrom(s, sep, 0)
    case None => [s]
    case Some(i) => [s[..i]] + Split(s[i + |sep|..], sep)
  }

  /** No part of a split on a one-character separator holds that character. */
  lemma {:induction false} SplitPartsLackSeparator(s: string, sep: string)
    requires |sep| == 1
    ensures forall k :: 0 <= k < |Split(s, sep)| ==> sep[0] !in Split(s, sep)[k]
    decreases |s|
  {
    match FindFrom(s, sep, 0)
    case None =>
      forall i | 0 <= i < |s| ensures s[i] != sep[0] {
        assert !MatchAt(s, sep, i);
        assert s[i..i + 1] == [s[i]];
      }
    case Some(i) =>
      forall j | 0 <= j < i ensures s[j] != sep[0] {
        assert !MatchAt(s, sep, j);
        assert s[j..j + 1] == [s[j]];
      }
      SplitPartsLackSeparator(s[i + 1..], sep);
  }

  /** `sep.join(parts)`. */
  function Join(parts: seq<string>, sep: string): string
    decreases |parts|
  {
    if |parts| == 0 then ""
    else if |parts| == 1 then parts[0]
    else parts[0] + sep + Join(parts[1..], sep)
  }

  /** When `a` cannot hold the separator's first character, the first
      occurrence of `sep` in `a + sep + b` is right after `a`. */
  lemma FindAfterPrefix(a: string, sep: string, b: string)
    requires |sep| > 0 && sep[0] !in a
    ensures FindFrom(a + sep + b, sep, 0) == Some(|a|)
  {
    var s := a + sep + b;
    assert MatchAt(s, sep, |a|) by {
      assert s[|a|..|a| + |sep|] == sep;
    }
  }

  /** Splitting `a + sep + b` cuts off `a` first when `a` cannot hold the separator. */
  lemma SplitAfterPrefix(a: string, sep: string, b: string)
    requires |sep| > 0 && sep[0] !in a
    ensures Split(a + sep + b, sep) == [a] + Split(b, sep)
  {
    var s := a + sep + b;
    FindAfterPrefix(a, sep, b);
    assert s[..|a|] == a;
    assert s[|a| + |sep|..] == b;
  }

  /** A string that lacks the separator's first character splits into itself. */
  lemma SplitWithoutSeparator(b: string, sep: string)
    requires |sep| > 0 && sep[0] !in b
    ensures Split(b, sep) == [b]
  {
  }

  /** A string made of two parts neither of which holds the separator's first character splits into them. */
  lemma SplitPair(a: string, sep: string, b: string)
    requires |sep| > 0 && sep[0] !in a && sep[0] !in b
    ensures Split(a + sep + b, sep) == [a, b]
  {
    SplitAfterPrefix(a, sep, b);
    SplitWithoutSeparator(b, sep);
  }

  /** Splitting undoes joining when no part holds the separator's first character. */
  lemma {:induction false} SplitJoin(parts: seq<string>, sep: string)
    requires |sep| > 0 && |parts| >= 1
    requires forall k :: 0 <= k < |parts| ==> sep[0] !in parts[k]
    ensures Split(Join(parts, sep), sep) == parts
    decreases |parts|
  {
    if |parts| == 1 {
      SplitWithoutSeparator(parts[0], sep);
    } else {
      SplitAfterPrefix(parts[0], sep, Join(parts[1..], sep));
      SplitJoin(parts[1..], sep);
      assert parts == [parts[0]] + parts[1..];
    }
  }

  /* ---------- decimal numbers ---------- */

  function DigitOf(c: char): nat
    requires IsDigit(c)
  {
    c as int - '0' as int
  }

  function DigitChar(d: nat): (c: char)
    requires d < 10
    ensures IsDigit(c) && DigitOf(c) == d
  {
    ('0' as int + d) as char
  }

  /** The value of a string of decimal digits (leading zeros allowed). */
  function DigitsValue(s: string): nat
    requires AllDigits(s)
  {
    if |s| == 0 then 0 else DigitsValue(s[..|s| - 1]) * 10 + DigitOf(s[|s| - 1])
  }

  /** The shortest decimal digits of `n`. */
  function DecimalDigits(n: nat): (d: string)
    ensures |d| >= 1 && AllDigits(d)
  {
    if n < 10 then [DigitChar(n)] else DecimalDigits(n / 10) + [DigitChar(n % 10)]
  }

  lemma {:induction false} DecimalDigitsValue(n: nat)
    ensures DigitsValue(DecimalDigits(n)) == n
  {
    if n >= 10 {
      var d := DecimalDigits(n);
      assert d[..|d| - 1] == DecimalDigits(n / 10);
      DecimalDigitsValue(n / 10);
    }
  }

  function Zeros(k: nat): (z: string)
    ensures |z| == k && AllDigits(z) && forall i :: 0 <= i < k ==> z[i] == '0'
  {
    seq(k, i => '0')
  }

  lemma {:induction false} ZerosValue(k: nat)
    ensures DigitsValue(Zeros(k)) == 0
  {
    if k > 0 {
      assert Zeros(k)[..k - 1] == Zeros(k - 1);
      ZerosValue(k - 1);
    }
  }

  /** Leading zeros do not change the value of a digit string. */
  lemma {:induction false} LeadingZerosValue(k: nat, d: string)
    requires AllDigits(d)
    ensures AllDigits(Zeros(k) + d) && DigitsValue(Zeros(k) + d) == DigitsValue(d)
    decreases |d|
  {
    var s := Zeros(k) + d;
    if |d| == 0 {
      assert s == Zeros(k);
      ZerosValue(k);
    } else {
      assert s[..|s| - 1] == Zeros(k) + d[..|d| - 1];
      LeadingZerosValue(k, d[..|d| - 1]);
    }
  }

  /** Left-pads a digit string with zeros to `width`. */
  function ZeroPad(d: string, width: nat): string {
    if |d| < width then Zeros(width - |d|) + d else d
  }

  /** Python's `f"{n:0{width}d}"`: sign first, then zero padding. */
  function FormatInt(n: int, width: nat): string {
    if n < 0 then "-" + ZeroPad(DecimalDigits(-n), if width > 0 then width - 1 else 0)
    else ZeroPad(DecimalDigits(n), width)
  }

  /** Python's `int(s)` on a string: surrounding white space, an optional sign
      and at least one decimal digit. */
  function ParseInt(s: string): Option<int> {
    var t := Strip(s);
    if |t| > 0 && (t[0] == '-' || t[0] == '+') then
      if |t| > 1 && AllDigits(t[1..]) then
        Some(if t[0] == '-' then -(DigitsValue(t[1..]) as int) else DigitsValue(t[1..]) as int)
      else None
    else if |t| > 0 && AllDigits(t) then Some(DigitsValue(t) as int)
    else None
  }

  /** Zero-padded formatting of a non-negative number parses back to it. */
  lemma FormatIntParses(n: int, width: nat)
    requires n >= 0
    ensures AllDigits(FormatInt(n, width)) && |FormatInt(n, width)| >= 1
    ensures ParseInt(FormatInt(n, width)) == Some(n)
  {
    var d := DecimalDigits(n);
    var f := FormatInt(n, width);
    DecimalDigitsValue(n);
    if |d| < width {
      LeadingZerosValue(width - |d|, d);
    }
    assert DigitsValue(f) == n;
    DigitNotSpace(f[0]);
    DigitNotSpace(f[|f| - 1]);
    StripUnpadded(f);
  }

  function Pow10(k: nat): (p: nat)
    ensures p >= 1
  {
    if k == 0 then 1 else 10 * Pow10(k - 1)
  }

  /** `digits[.digits]` or `.digits`, with at least one digit. */
  function UnsignedDecimal(b: string): Option<real> {
    var parts := Split(b, ".");
    if |parts| == 1 then
      if |b| > 0 && AllDigits(b) then Some(DigitsValue(b) as real) else None
    else if |parts| == 2 && AllDigits(parts[0]) && AllDigits(parts[1])
            && |parts[0]| + |parts[1]| > 0 then
      Some(DigitsValue(parts[0]) as real + DigitsValue(parts[1]) as real / Pow10(|parts[1]|) as real)
    else None
  }

  /** Python's `float(s)` restricted to plain decimal notation with an optional sign
      and surrounding white space. */
  function ParseFloat(s: string): Option<real> {
    var t := Strip(s);
    if |t| > 0 && (t[0] == '-' || t[0] == '+') then
      match UnsignedDecimal(t[1..])
      case None => None
      case Some(x) => Some(if t[0] == '-' then -x else x)
    else UnsignedDecimal(t)
  }

  /** Python's `s[:k]` for any integer `k` (a negative `k` counts from the end). */
  function SliceTo<T>(s: seq<T>, k: int): (r: seq<T>)
    ensures k >= 0 ==> |r| == if k <= |s| then k else |s|
    ensures |r| <= |s| && r == s[..|r|]
  {
    if k >= 0 then (if k <= |s| then s[..k] else s)
    else if |s| + k >= 0 then s[..|s| + k] else []
  }
}
