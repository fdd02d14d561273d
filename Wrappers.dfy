/** Option and Result values for the model: Python's None and raised exceptions. */
module Wrappers {

  /** A value that may be absent (Python's `None`, SQL's NULL). */
  datatype Option<+T> = None | Some(value: T) {
    /** The value, or `default` when absent (Python's `x or default` for non-falsy values). */
    function GetOr(default: T): T {
      match this
      case Some(v) => v
      case None => default
    }
  }

  /** The outcome of an operation that may raise: `Err` carries the exception's message. */
  datatype Result<+T> = Ok(value: T) | Err(error: string)

  /** `value or 0.0` for an optional real. */
  function OrZero(v: Option<real>): real {
    v.GetOr(0.0)
  }

  /** The kept values of a row-by-row parse, in row order; the first failure aborts. */
  function Gather<T>(parsed: seq<Result<Option<T>>>): Result<seq<T>> {
    if parsed == [] then Ok([])
    else
      match Gather(parsed[..|parsed| - 1])
      case Err(e) => Err(e)
      case Ok(kept) =>
        match parsed[|parsed| - 1]
        case Err(e) => Err(e)
        case Ok(None) => Ok(kept)
        case Ok(Some(x)) => Ok(kept + [x])
  }

  /**
   * Gathering succeeds iff every row parses; a failure is the first failing row's; the
   * kept values are exactly the rows' values, and gathering a prefix keeps a prefix.
   */
  lemma {:induction false} GatherSpec<T>(parsed: seq<Result<Option<T>>>)
    ensures Gather(parsed).Ok? <==> forall i :: 0 <= i < |parsed| ==> parsed[i].Ok?
    ensures Gather(parsed).Err? ==> exists i :: (0 <= i < |parsed| && parsed[i].Err?
      && Gather(parsed).error == parsed[i].error && forall j :: 0 <= j < i ==> parsed[j].Ok?)
    ensures Gather(parsed).Ok? ==> forall x :: x in Gather(parsed).value <==>
      exists i :: 0 <= i < |parsed| && parsed[i] == Ok(Some(x))
    ensures Gather(parsed).Ok? ==> forall n :: 0 <= n <= |parsed| ==>
      Gather(parsed[..n]).Ok? && Gather(parsed[..n]).value <= Gather(parsed).value
  {
    if parsed != [] {
      var front := parsed[..|parsed| - 1];
      var last := parsed[|parsed| - 1];
      GatherSpec(front);
      assert forall i :: 0 <= i < |front| ==> front[i] == parsed[i];
      if Gather(front).Ok? && last.Ok? {
        var kept := Gather(front).value;
        forall n | 0 <= n <= |parsed|
          ensures Gather(parsed[..n]).Ok? && Gather(parsed[..n]).value <= Gather(parsed).value
        {
          if n < |parsed| {
            assert parsed[..n] == front[..n];
          } else {
            assert parsed[..n] == parsed;
          }
        }
      }
    }
  }

  /** Once a prefix fails, gathering the whole sequence fails with the same error. */
  lemma {:induction false} GatherErrorSticks<T>(parsed: seq<Result<Option<T>>>, n: nat)
    requires n <= |parsed| && Gather(parsed[..n]).Err?
    ensures Gather(parsed) == Gather(parsed[..n])
    decreases |parsed| - n
  {
    if n < |parsed| {
      assert parsed[..n + 1][..n] == parsed[..n];
      GatherErrorSticks(parsed, n + 1);
    } else {
      assert parsed[..n] == parsed;
    }
  }

  /** The first failing row's error is the error of gathering the whole sequence. */
  lemma GatherFailsAt<T>(parsed: seq<Result<Option<T>>>, n: nat)
    requires n < |parsed| && Gather(parsed[..n]).Ok? && parsed[n].Err?
    ensures Gather(parsed) == Err(parsed[n].error)
  {
    assert parsed[..n + 1][..n] == parsed[..n];
    GatherErrorSticks(parsed, n + 1);
  }

  /** One more row kept: its value is appended to the kept values of the rows before it. */
  lemma GatherKeepsNext<T>(parsed: seq<Result<Option<T>>>, n: nat, kept: seq<T>, x: T)
    requires n < |parsed| && Gather(parsed[..n]) == Ok(kept) && parsed[n] == Ok(Some(x))
    ensures Gather(parsed[..n + 1]) == Ok(kept + [x])
  {
    assert parsed[..n + 1][..n] == parsed[..n];
  }

  /** Gathering is compositional: the kept values of two runs of rows are kept in order. */
  lemma {:induction false} GatherAppend<T>(a: seq<Result<Option<T>>>, b: seq<Result<Option<T>>>)
    requires Gather(a).Ok? && Gather(b).Ok?
    ensures Gather(a + b) == Ok(Gather(a).value + Gather(b).value)
    decreases |b|
  {
    if b == [] {
      assert a + b == a && Gather(a).value + [] == Gather(a).value;
    } else {
      var front := b[..|b| - 1];
      assert (a + b)[..|a + b| - 1] == a + front;
      assert Gather(front).Ok?;
      GatherAppend(a, front);
      assert (a + b)[|a + b| - 1] == b[|b| - 1];
      match b[|b| - 1]
      case Ok(None) =>
      case Ok(Some(x)) =>
        assert (Gather(a).value + Gather(front).value) + [x] == Gather(a).value + (Gather(front).value + [x]);
    }
  }

  /** Every row parsed by `parse`, in row order. */
  function ParseAll<R, T>(parse: R -> Result<Option<T>>, rows: seq<R>): (r: seq<Result<Option<T>>>)
    ensures |r| == |rows| && forall i :: 0 <= i < |rows| ==> r[i] == parse(rows[i])
  {
    seq(|rows|, i requires 0 <= i < |rows| => parse(rows[i]))
  }

  lemma ParseAllAppend<R, T>(parse: R -> Result<Option<T>>, a: seq<R>, b: seq<R>)
    ensures ParseAll(parse, a + b) == ParseAll(parse, a) + ParseAll(parse, b)
  {
    assert forall i :: 0 <= i < |a| ==> (a + b)[i] == a[i];
    assert forall i :: |a| <= i < |a + b| ==> (a + b)[i] == b[i - |a|];
  }

  /** The row-by-row loop: parse each row, stop at the first failure, keep the kept values. */
  method GatherFrom<R, T>(parse: R -> Result<Option<T>>, rows: seq<R>) returns (r: Result<seq<T>>)
    ensures r == Gather(ParseAll(parse, rows))
  {
    ghost var parsed := ParseAll(parse, rows);
    var kept: seq<T> := [];
    var i := 0;
    while i < |rows|
      invariant 0 <= i <= |rows|
      invariant Gather(parsed[..i]) == Ok(kept)
    {
      var item := parse(rows[i]);
      assert parsed[..i + 1][..i] == parsed[..i];
      if item.Err? {
        GatherErrorSticks(parsed, i + 1);
        return Err(item.error);
      }
      if item.value.Some? {
        kept := kept + [item.value.value];
      }
      i := i + 1;
    }
    assert parsed[..i] == parsed;
    return Ok(kept);
  }

  /** A successful gathering keeps something iff some row parsed to a value. */
  lemma GatherNonEmpty<T>(parsed: seq<Result<Option<T>>>)
    requires Gather(parsed).Ok?
    ensures Gather(parsed).value != [] <==> exists i :: 0 <= i < |parsed| && parsed[i].Ok? && parsed[i].value.Some?
  {
    GatherSpec(parsed);
    var kept := Gather(parsed).value;
    if kept != [] {
      assert kept[0] in kept;
    }
    if exists i :: 0 <= i < |parsed| && parsed[i].Ok? && parsed[i].value.Some? {
      var i :| 0 <= i < |parsed| && parsed[i].Ok? && parsed[i].value.Some?;
      assert parsed[i] == Ok(Some(parsed[i].value.value));
    }
  }

  /** When no row is dropped or fails, every row's value is kept, in order. */
  lemma {:induction false} GatherAllKept<T>(parsed: seq<Result<Option<T>>>)
    requires forall i :: 0 <= i < |parsed| ==> parsed[i].Ok? && parsed[i].value.Some?
    ensures Gather(parsed).Ok? && |Gather(parsed).value| == |parsed|
    ensures forall i :: 0 <= i < |parsed| ==> Gather(parsed).value[i] == parsed[i].value.value
  {
    if parsed != [] {
      var front := parsed[..|parsed| - 1];
      GatherAllKept(front);
      assert forall i :: 0 <= i < |front| ==> front[i] == parsed[i];
    }
  }
}
