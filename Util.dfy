/** Analytics math: log normalisation, the Herfindahl-Hirschman index and the
    per-sector technical feasibility heuristic. */
module Util {
  import opened Wrappers
  import opened Strings

  /* ---------- norm_log ---------- */

  /** The shape of `math.log1p` the model relies on: strictly increasing, zero at zero. */
  ghost predicate LogLike(log1p: real -> real) {
    && (forall x, y :: x < y ==> log1p(x) < log1p(y))
    && log1p(0.0) == 0.0
  }

  /** The transformed value of one input: `log1p(value)`, and `0.0` for `None`. */
  function Transformed(v: Option<real>, log1p: real -> real): real {
    if v.Some? then log1p(v.value) else 0.0
  }

  /** For a log-like transform, `None` is transformed exactly as the value `0`. */
  lemma TransformedNoneAsZero(v: Option<real>, log1p: real -> real)
    requires LogLike(log1p)
    ensures Transformed(v, log1p) == log1p(OrZero(v))
  {
  }

  /** Transformation keeps the order of the inputs (`None` read as `0`), strictly so for strict inequalities. */
  lemma TransformedMonotone(a: Option<real>, b: Option<real>, log1p: real -> real)
    requires LogLike(log1p)
    ensures OrZero(a) <= OrZero(b) ==> Transformed(a, log1p) <= Transformed(b, log1p)
    ensures OrZero(a) < OrZero(b) ==> Transformed(a, log1p) < Transformed(b, log1p)
  {
    TransformedNoneAsZero(a, log1p);
    TransformedNoneAsZero(b, log1p);
  }

  /** The smallest transformed value of a non-empty collection (`min(log_values)`). */
  function MinLog(items: seq<(string, Option<real>)>, log1p: real -> real): (m: real)
    requires items != []
    ensures forall i :: 0 <= i < |items| ==> m <= Transformed(items[i].1, log1p)
    ensures exists i :: 0 <= i < |items| && m == Transformed(items[i].1, log1p)
  {
    var t := Transformed(items[|items| - 1].1, log1p);
    if |items| == 1 then t
    else
      var m := MinLog(items[..|items| - 1], log1p);
      assert forall i :: 0 <= i < |items| - 1 ==> items[..|items| - 1][i] == items[i];
      if t < m then t else m
  }

  /** The largest transformed value of a non-empty collection (`max(log_values)`). */
  function MaxLog(items: seq<(string, Option<real>)>, log1p: real -> real): (m: real)
    requires items != []
    ensures forall i :: 0 <= i < |items| ==> Transformed(items[i].1, log1p) <= m
    ensures exists i :: 0 <= i < |items| && m == Transformed(items[i].1, log1p)
  {
    var t := Transformed(items[|items| - 1].1, log1p);
    if |items| == 1 then t
    else
      var m := MaxLog(items[..|items| - 1], log1p);
      assert forall i :: 0 <= i < |items| - 1 ==> items[..|items| - 1][i] == items[i];
      if t > m then t else m
  }

  /** The normalised value of one transformed value, given the collection's bounds. */
  function Scaled(t: real, lo: real, hi: real): real {
    if hi - lo == 0.0 then 0.0 else (t - lo) / (hi - lo)
  }

  /** The dictionary comprehension: one entry per item, a later item replacing an earlier one of the same key. */
  function ScaledMap(items: seq<(string, Option<real>)>, log1p: real -> real, lo: real, hi: real): map<string, real> {
    if items == [] then map[]
    else
      var last := items[|items| - 1];
      ScaledMap(items[..|items| - 1], log1p, lo, hi)[last.0 := Scaled(Transformed(last.1, log1p), lo, hi)]
  }

  /** The keys of a collection of pairs. */
  function KeysOf(items: seq<(string, Option<real>)>): set<string> {
    set i | 0 <= i < |items| :: items[i].0
  }

  /** `norm_log(values)`: min-max normalisation of the `log1p`-transformed values. */
  function NormLog(items: seq<(string, Option<real>)>, log1p: real -> real): (r: map<string, real>)
    ensures items == [] ==> r == map[]
  {
    if items == [] then map[]
    else
      var lo := MinLog(items, log1p);
      var hi := MaxLog(items, log1p);
      ScaledMap(items, log1p, lo, hi)
  }

  /** The comprehension has exactly the keys of its items. */
  lemma {:induction false} ScaledMapKeys(items: seq<(string, Option<real>)>, log1p: real -> real, lo: real, hi: real)
    ensures ScaledMap(items, log1p, lo, hi).Keys == KeysOf(items)
  {
    if items != [] {
      var front := items[..|items| - 1];
      ScaledMapKeys(front, log1p, lo, hi);
      assert forall i :: 0 <= i < |front| ==> front[i] == items[i];
      assert KeysOf(items) == KeysOf(front) + {items[|items| - 1].0};
    }
  }

  /** Every value of the comprehension is the normalisation of some item with that key. */
  lemma {:induction false} ScaledMapFrom(items: seq<(string, Option<real>)>, log1p: real -> real, lo: real, hi: real)
    ensures forall k :: k in ScaledMap(items, log1p, lo, hi) ==>
      exists i :: 0 <= i < |items| && items[i].0 == k
        && ScaledMap(items, log1p, lo, hi)[k] == Scaled(Transformed(items[i].1, log1p), lo, hi)
  {
    if items != [] {
      var front := items[..|items| - 1];
      ScaledMapFrom(front, log1p, lo, hi);
      assert forall i :: 0 <= i < |front| ==> front[i] == items[i];
    }
  }

  /** An item no later item shares its key with gives that key's value. */
  lemma {:induction false} ScaledMapAt(items: seq<(string, Option<real>)>, log1p: real -> real, lo: real, hi: real, i: int)
    requires 0 <= i < |items|
    requires forall j :: i < j < |items| ==> items[j].0 != items[i].0
    ensures items[i].0 in ScaledMap(items, log1p, lo, hi)
    ensures ScaledMap(items, log1p, lo, hi)[items[i].0] == Scaled(Transformed(items[i].1, log1p), lo, hi)
  {
    if i < |items| - 1 {
      var front := items[..|items| - 1];
      ScaledMapAt(front, log1p, lo, hi, i);
    }
  }

  lemma DivideWithin(x: real, d: real)
    requires 0.0 <= x <= d && d > 0.0
    ensures 0.0 <= x / d <= 1.0
  {
  }

  lemma DivideMonotone(a: real, b: real, d: real)
    requires a <= b && d > 0.0
    ensures a / d <= b / d
    ensures a < b ==> a / d < b / d
  {
  }

  /** Normalisation of one value between the bounds lands in `[0, 1]`, the bounds on its ends. */
  lemma ScaledBounds(t: real, lo: real, hi: real)
    requires lo <= t <= hi
    ensures 0.0 <= Scaled(t, lo, hi) <= 1.0
    ensures t == lo ==> Scaled(t, lo, hi) == 0.0
    ensures t == hi && lo < hi ==> Scaled(t, lo, hi) == 1.0
  {
    if hi - lo != 0.0 {
      DivideWithin(t - lo, hi - lo);
    }
  }

  /** Normalisation between fixed bounds keeps order, strictly when the span is not zero. */
  lemma ScaledMonotone(a: real, b: real, lo: real, hi: real)
    requires lo <= hi && a <= b
    ensures Scaled(a, lo, hi) <= Scaled(b, lo, hi)
    ensures a < b && lo < hi ==> Scaled(a, lo, hi) < Scaled(b, lo, hi)
  {
    if hi - lo != 0.0 {
      DivideMonotone(a - lo, b - lo, hi - lo);
    }
  }

  /** The keys of the result are exactly the keys of the input. */
  lemma {:induction false} NormLogKeys(items: seq<(string, Option<real>)>, log1p: real -> real)
    ensures NormLog(items, log1p).Keys == KeysOf(items)
  {
    if items != [] {
      ScaledMapKeys(items, log1p, MinLog(items, log1p), MaxLog(items, log1p));
    }
  }

  /** The value of a key is the normalisation of its last item's transformed value. */
  lemma {:induction false} NormLogValue(items: seq<(string, Option<real>)>, log1p: real -> real, i: int)
    requires 0 <= i < |items|
    requires forall j :: i < j < |items| ==> items[j].0 != items[i].0
    ensures items[i].0 in NormLog(items, log1p)
    ensures NormLog(items, log1p)[items[i].0] ==
      Scaled(Transformed(items[i].1, log1p), MinLog(items, log1p), MaxLog(items, log1p))
  {
    ScaledMapAt(items, log1p, MinLog(items, log1p), MaxLog(items, log1p), i);
  }

  /** When all transformed values coincide, every key is mapped to `0.0`. */
  lemma {:induction false} NormLogConstant(items: seq<(string, Option<real>)>, log1p: real -> real)
    requires forall i, j :: 0 <= i < |items| && 0 <= j < |items| ==>
      Transformed(items[i].1, log1p) == Transformed(items[j].1, log1p)
    ensures forall k :: k in NormLog(items, log1p) ==> NormLog(items, log1p)[k] == 0.0
  {
    if items != [] {
      var lo := MinLog(items, log1p);
      var hi := MaxLog(items, log1p);
      ScaledMapFrom(items, log1p, lo, hi);
    }
  }

  /** Every value lies in `[0, 1]`. */
  lemma {:induction false} NormLogBounds(items: seq<(string, Option<real>)>, log1p: real -> real)
    ensures forall k :: k in NormLog(items, log1p) ==> 0.0 <= NormLog(items, log1p)[k] <= 1.0
  {
    if items != [] {
      var lo := MinLog(items, log1p);
      var hi := MaxLog(items, log1p);
      var r := NormLog(items, log1p);
      ScaledMapFrom(items, log1p, lo, hi);
      forall k | k in r ensures 0.0 <= r[k] <= 1.0 {
        var i :| 0 <= i < |items| && items[i].0 == k
          && r[k] == Scaled(Transformed(items[i].1, log1p), lo, hi);
        ScaledBounds(Transformed(items[i].1, log1p), lo, hi);
      }
    }
  }

  /** No key occurs twice (always so for a dictionary input). */
  predicate DistinctKeys(items: seq<(string, Option<real>)>) {
    forall i, j :: 0 <= i < j < |items| ==> items[i].0 != items[j].0
  }

  lemma {:induction false} NonConstantSpan(items: seq<(string, Option<real>)>, log1p: real -> real)
    requires exists i, j :: (0 <= i < |items| && 0 <= j < |items| &&
      Transformed(items[i].1, log1p) != Transformed(items[j].1, log1p))
    ensures MinLog(items, log1p) < MaxLog(items, log1p)
  {
    var i, j :| 0 <= i < |items| && 0 <= j < |items| &&
      Transformed(items[i].1, log1p) != Transformed(items[j].1, log1p);
  }

  /** With distinct keys, an item holding the smallest transformed value is mapped to `0`. */
  lemma {:induction false} NormLogMinIsZero(items: seq<(string, Option<real>)>, log1p: real -> real, a: int)
    requires DistinctKeys(items) && 0 <= a < |items|
    requires Transformed(items[a].1, log1p) == MinLog(items, log1p)
    ensures items[a].0 in NormLog(items, log1p) && NormLog(items, log1p)[items[a].0] == 0.0
  {
    NormLogValue(items, log1p, a);
    ScaledBounds(MinLog(items, log1p), MinLog(items, log1p), MaxLog(items, log1p));
  }

  /** With distinct keys and a non-constant collection, an item holding the largest
      transformed value is mapped to `1`. */
  lemma {:induction false} NormLogMaxIsOne(items: seq<(string, Option<real>)>, log1p: real -> real, b: int)
    requires DistinctKeys(items) && 0 <= b < |items|
    requires Transformed(items[b].1, log1p) == MaxLog(items, log1p)
    requires MinLog(items, log1p) < MaxLog(items, log1p)
    ensures items[b].0 in NormLog(items, log1p) && NormLog(items, log1p)[items[b].0] == 1.0
  {
    NormLogValue(items, log1p, b);
    ScaledBounds(MaxLog(items, log1p), MinLog(items, log1p), MaxLog(items, log1p));
  }

  /** With distinct keys and a non-constant collection, the minimum maps to `0` and the maximum to `1`. */
  lemma {:induction false} NormLogExtremes(items: seq<(string, Option<real>)>, log1p: real -> real)
    requires DistinctKeys(items)
    requires exists i, j :: (0 <= i < |items| && 0 <= j < |items| &&
      Transformed(items[i].1, log1p) != Transformed(items[j].1, log1p))
    ensures exists k :: k in NormLog(items, log1p) && NormLog(items, log1p)[k] == 0.0
    ensures exists k :: k in NormLog(items, log1p) && NormLog(items, log1p)[k] == 1.0
  {
    NonConstantSpan(items, log1p);
    var a :| 0 <= a < |items| && MinLog(items, log1p) == Transformed(items[a].1, log1p);
    var b :| 0 <= b < |items| && MaxLog(items, log1p) == Transformed(items[b].1, log1p);
    NormLogMinIsZero(items, log1p, a);
    NormLogMaxIsOne(items, log1p, b);
  }

  /**
   * Order is preserved: with distinct keys, a larger input (`None` read as `0`) never gets
   * a smaller normalised value, and gets a strictly larger one when the collection is
   * not constant.
   */
  lemma {:induction false} NormLogMonotone(items: seq<(string, Option<real>)>, log1p: real -> real, a: int, b: int)
    requires LogLike(log1p) && DistinctKeys(items)
    requires 0 <= a < |items| && 0 <= b < |items|
    requires OrZero(items[a].1) <= OrZero(items[b].1)
    ensures items[a].0 in NormLog(items, log1p) && items[b].0 in NormLog(items, log1p)
    ensures NormLog(items, log1p)[items[a].0] <= NormLog(items, log1p)[items[b].0]
    ensures OrZero(items[a].1) < OrZero(items[b].1) ==>
      NormLog(items, log1p)[items[a].0] < NormLog(items, log1p)[items[b].0]
  {
    var lo := MinLog(items, log1p);
    var hi := MaxLog(items, log1p);
    var ta, tb := Transformed(items[a].1, log1p), Transformed(items[b].1, log1p);
    NormLogValue(items, log1p, a);
    NormLogValue(items, log1p, b);
    TransformedMonotone(items[a].1, items[b].1, log1p);
    ScaledMonotone(ta, tb, lo, hi);
  }

  /* ---------- hhi_from_shares ---------- */

  /** The sum of the squared shares, `None` counted as `0`. */
  function SumSquares(shares: seq<Option<real>>): real {
    if shares == [] then 0.0
    else SumSquares(shares[..|shares| - 1]) + Square(OrZero(shares[|shares| - 1]))
  }

  /** `x ** 2`. */
  function Square(x: real): real {
    x * x
  }

  /** The plain sum of the shares, `None` counted as `0`. */
  function SumShares(shares: seq<Option<real>>): real {
    if shares == [] then 0.0
    else SumShares(shares[..|shares| - 1]) + OrZero(shares[|shares| - 1])
  }

  /** `hhi_from_shares(shares)`: `None` for no shares, else the sum of their squares. */
  function HhiFromShares(shares: seq<Option<real>>): (r: Option<real>)
    ensures r.None? <==> shares == []
    ensures r.Some? ==> r.value >= 0.0
  {
    SumSquaresNonNegative(shares);
    if shares == [] then None else Some(SumSquares(shares))
  }

  lemma {:induction false} SumSquaresNonNegative(shares: seq<Option<real>>)
    ensures SumSquares(shares) >= 0.0
  {
    if shares != [] {
      SumSquaresNonNegative(shares[..|shares| - 1]);
      SquareNonNegative(OrZero(shares[|shares| - 1]));
    }
  }

  predicate NonNegativeShares(shares: seq<Option<real>>) {
    forall i :: 0 <= i < |shares| ==> OrZero(shares[i]) >= 0.0
  }

  /** For shares in `[0, 1]`, the sum of squares is at most the sum, and positive when the sum is. */
  lemma {:induction false} SumSquaresBelowSum(shares: seq<Option<real>>)
    requires forall i :: 0 <= i < |shares| ==> 0.0 <= OrZero(shares[i]) <= 1.0
    ensures 0.0 <= SumSquares(shares) <= SumShares(shares)
    ensures SumShares(shares) > 0.0 ==> SumSquares(shares) > 0.0
  {
    if shares != [] {
      var front := shares[..|shares| - 1];
      assert forall i :: 0 <= i < |front| ==> front[i] == shares[i];
      SumSquaresBelowSum(front);
      var x := OrZero(shares[|shares| - 1]);
      SquareNonNegative(x);
      SquareBelow(x);
      if x > 0.0 {
        SquarePositive(x);
      }
    }
  }

  lemma MulNonNegative(a: real, b: real)
    requires a >= 0.0 && b >= 0.0
    ensures a * b >= 0.0
  {
  }

  lemma SquareNonNegative(x: real)
    ensures Square(x) >= 0.0
  {
    if x >= 0.0 {
      MulNonNegative(x, x);
    } else {
      MulNonNegative(-x, -x);
    }
  }

  lemma MulPositive(a: real, b: real)
    requires a > 0.0 && b > 0.0
    ensures a * b > 0.0
  {
  }

  lemma SquarePositive(x: real)
    requires x > 0.0
    ensures Square(x) > 0.0
  {
    var half := x / 2.0;
    MulPositive(x, half);
    assert Square(x) == 2.0 * (x * half);
  }

  /** A share in `[0, 1]` squares to no more than itself. */
  lemma SquareBelow(x: real)
    requires 0.0 <= x <= 1.0
    ensures Square(x) <= x
  {
    MulNonNegative(x, 1.0 - x);
  }

  /** Each non-negative share is at most the total. */
  lemma {:induction false} ShareBelowSum(shares: seq<Option<real>>, i: int)
    requires NonNegativeShares(shares) && 0 <= i < |shares|
    ensures OrZero(shares[i]) <= SumShares(shares)
  {
    var front := shares[..|shares| - 1];
    assert forall j :: 0 <= j < |front| ==> front[j] == shares[j];
    SumSharesNonNegative(front);
    if i < |shares| - 1 {
      ShareBelowSum(front, i);
    }
  }

  lemma {:induction false} SumSharesNonNegative(shares: seq<Option<real>>)
    requires NonNegativeShares(shares)
    ensures SumShares(shares) >= 0.0
  {
    if shares != [] {
      var front := shares[..|shares| - 1];
      assert forall j :: 0 <= j < |front| ==> front[j] == shares[j];
      SumSharesNonNegative(front);
    }
  }

  /** For non-negative shares that sum to 1, the index lies in `(0, 1]`. */
  lemma {:induction false} HhiBounds(shares: seq<Option<real>>)
    requires NonNegativeShares(shares) && SumShares(shares) == 1.0
    ensures HhiFromShares(shares).Some?
    ensures 0.0 < HhiFromShares(shares).value <= 1.0
  {
    forall i | 0 <= i < |shares| ensures 0.0 <= OrZero(shares[i]) <= 1.0 {
      ShareBelowSum(shares, i);
    }
    SumSquaresBelowSum(shares);
  }

  /** A single partner holding the whole market gives the maximal index `1`. */
  lemma HhiSinglePartner()
    ensures HhiFromShares([Some(1.0)]) == Some(1.0)
  {
  }

  /** A `None` share counts exactly as a zero share. */
  lemma {:induction false} HhiNoneAsZero(shares: seq<Option<real>>, i: int)
    requires 0 <= i < |shares| && shares[i].None?
    ensures HhiFromShares(shares) == HhiFromShares(shares[i := Some(0.0)])
  {
    SumSquaresNoneAsZero(shares, i);
  }

  lemma {:induction false} SumSquaresNoneAsZero(shares: seq<Option<real>>, i: int)
    requires 0 <= i < |shares| && shares[i].None?
    ensures SumSquares(shares) == SumSquares(shares[i := Some(0.0)])
  {
    var t := shares[i := Some(0.0)];
    assert t[..|t| - 1] == if i < |shares| - 1 then shares[..|shares| - 1][i := Some(0.0)] else shares[..|shares| - 1];
    if i < |shares| - 1 {
      SumSquaresNoneAsZero(shares[..|shares| - 1], i);
    }
  }

  /* ---------- tech_feasibility_for ---------- */

  /** `SECTOR_TECH_FEASIBILITY`. */
  const SectorTechFeasibility: map<string, real> := map[
    "electronics" := 0.7,
    "industrial" := 0.6,
    "automotive" := 0.5,
    "metals" := 0.65,
    "energy" := 0.6,
    "instruments" := 0.65
  ]

  /** The default feasibility: for no sectors, and for a sector missing from the table. */
  const DefaultFeasibility: real := 0.6

  /** The table score of one sector, looked up case-insensitively. */
  function SectorScore(sector: string): (r: real)
    ensures 0.5 <= r <= 0.7
    ensures Lower(sector) in SectorTechFeasibility ==> r == SectorTechFeasibility[Lower(sector)]
    ensures Lower(sector) !in SectorTechFeasibility ==> r == DefaultFeasibility
  {
    var key := Lower(sector);
    if key in SectorTechFeasibility then SectorTechFeasibility[key] else DefaultFeasibility
  }

  /** `max(0.0, score(s_0), ..., score(s_n-1))`. */
  function BestScore(sectors: seq<string>): real {
    if sectors == [] then 0.0
    else
      var best := BestScore(sectors[..|sectors| - 1]);
      var score := SectorScore(sectors[|sectors| - 1]);
      if score > best then score else best
  }

  /** What `tech_feasibility_for(sectors)` returns; `None` stands for a missing sector list. */
  function TechFeasibility(sectors: Option<seq<string>>): real {
    if sectors.None? || sectors.value == [] then DefaultFeasibility
    else
      var best := BestScore(sectors.value);
      if best == 0.0 then DefaultFeasibility else best
  }

  /** `tech_feasibility_for`: the loop that keeps the running best score. */
  method TechFeasibilityFor(sectors: Option<seq<string>>) returns (score: real)
    ensures score == TechFeasibility(sectors)
  {
    if sectors.None? || sectors.value == [] {
      return DefaultFeasibility;
    }
    var s := sectors.value;
    var best := 0.0;
    var i := 0;
    while i < |s|
      invariant 0 <= i <= |s|
      invariant best == BestScore(s[..i])
    {
      assert s[..i + 1][..i] == s[..i];
      var sc := SectorScore(s[i]);
      best := if sc > best then sc else best;
      i := i + 1;
    }
    assert s[..i] == s;
    score := if best == 0.0 then DefaultFeasibility else best;
  }

  /** The running best of a non-empty list is the largest sector score, attained by one of them. */
  lemma {:induction false} BestScoreIsMax(sectors: seq<string>)
    requires sectors != []
    ensures forall i :: 0 <= i < |sectors| ==> SectorScore(sectors[i]) <= BestScore(sectors)
    ensures exists i :: 0 <= i < |sectors| && BestScore(sectors) == SectorScore(sectors[i])
  {
    var front := sectors[..|sectors| - 1];
    assert forall i :: 0 <= i < |front| ==> front[i] == sectors[i];
    if front != [] {
      BestScoreIsMax(front);
    }
    var last := |sectors| - 1;
    if BestScore(sectors) == SectorScore(sectors[last]) {
    } else {
      var j :| 0 <= j < |front| && BestScore(front) == SectorScore(front[j]);
      assert BestScore(sectors) == SectorScore(sectors[j]);
    }
  }

  /**
   * What `tech_feasibility_for` promises: `0.6` without sectors; otherwise the largest
   * case-insensitive table score over the sectors (`0.6` for an unknown one), which
   * always lies in `[0.5, 0.7]`.
   */
  lemma {:induction false} TechFeasibilitySpec(sectors: Option<seq<string>>)
    ensures sectors.None? || sectors.value == [] ==> TechFeasibility(sectors) == DefaultFeasibility
    ensures sectors.Some? && sectors.value != [] ==>
      (forall i :: 0 <= i < |sectors.value| ==> SectorScore(sectors.value[i]) <= TechFeasibility(sectors))
      && (exists i :: 0 <= i < |sectors.value| && TechFeasibility(sectors) == SectorScore(sectors.value[i]))
    ensures 0.5 <= TechFeasibility(sectors) <= 0.7
  {
    if sectors.Some? && sectors.value != [] {
      BestScoreIsMax(sectors.value);
    }
  }
}
