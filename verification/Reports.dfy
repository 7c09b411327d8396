/** The closing figures that every replay script computes from its executed trades. */
module Reports {
  import opened Prelude
  import opened Sorting
  import opened Schedule
  import opened Drawdown

  datatype Summary = Summary(
    signals: nat, counts: seq<nat>, totalR: real, expectancyR: real, maximumDrawdownR: real)

  function CountWhere<E>(es: seq<E>, p: E -> bool): nat {
    if es == [] then 0 else CountWhere(es[..|es| - 1], p) + (if p(es[|es| - 1]) then 1 else 0)
  }

  function Outcomes<E>(es: seq<E>, outcome: E -> real): (rs: seq<real>)
    ensures |rs| == |es|
  {
    if es == [] then [] else Outcomes(es[..|es| - 1], outcome) + [outcome(es[|es| - 1])]
  }

  function ClosesNoLater<E>(closed: E -> int): (E, E) -> bool {
    (a: E, b: E) => closed(a) <= closed(b)
  }

  function InClosingOrder<E>(es: seq<E>, closed: E -> int): seq<E> {
    Sort(es, ClosesNoLater(closed))
  }

  /** The equity curve of the trades in the order in which they closed, from zero. */
  function EquityCurve<E>(es: seq<E>, outcome: E -> real, closed: E -> int): seq<real> {
    Curve(0.0, Outcomes(InClosingOrder(es, closed), outcome))
  }

  /** Nothing on average when there is nothing. */
  function Mean(total: real, n: nat): (mean: real)
    ensures n > 0 ==> mean * n as real == total
  {
    if n == 0 then 0.0 else total / n as real
  }

  ghost predicate Summarizes<E>(
      s: Summary, es: seq<E>, flags: seq<E -> bool>, outcome: E -> real, closed: E -> int)
  {
    && s.signals == |es|
    && |s.counts| == |flags| && (forall k :: 0 <= k < |flags| ==> s.counts[k] == CountWhere(es, flags[k]))
    && s.totalR == SumBy(es, outcome)
    && s.expectancyR == Mean(s.totalR, |es|)
    && IsMaximumDrawdown(EquityCurve(es, outcome, closed), s.maximumDrawdownR)
  }

  method Count<E>(es: seq<E>, p: E -> bool) returns (n: nat)
    ensures n == CountWhere(es, p)
  {
    n := 0;
    for k := 0 to |es|
      invariant n == CountWhere(es[..k], p)
    {
      assert es[..k + 1][..k] == es[..k];
      n := n + if p(es[k]) then 1 else 0;
    }
    assert es[..|es|] == es;
  }

  method Total<E>(es: seq<E>, outcome: E -> real) returns (total: real)
    ensures total == SumBy(es, outcome)
  {
    total := 0.0;
    for k := 0 to |es|
      invariant total == SumBy(es[..k], outcome)
    {
      assert es[..k + 1][..k] == es[..k];
      total := total + outcome(es[k]);
    }
    assert es[..|es|] == es;
  }

  method CountAll<E>(es: seq<E>, flags: seq<E -> bool>) returns (counts: seq<nat>)
    ensures |counts| == |flags| && forall k :: 0 <= k < |flags| ==> counts[k] == CountWhere(es, flags[k])
  {
    counts := [];
    for k := 0 to |flags|
      invariant |counts| == k && forall j :: 0 <= j < k ==> counts[j] == CountWhere(es, flags[j])
    {
      var n := Count(es, flags[k]);
      counts := counts + [n];
    }
  }

  method DeepestFall<E>(es: seq<E>, outcome: E -> real, closed: E -> int) returns (dd: real)
    ensures IsMaximumDrawdown(EquityCurve(es, outcome, closed), dd)
  {
    var _, _, deepest := MaximumDrawdown(0.0, Outcomes(InClosingOrder(es, closed), outcome));
    dd := deepest;
  }

  method Summarize<E>(es: seq<E>, flags: seq<E -> bool>, outcome: E -> real, closed: E -> int) returns (s: Summary)
    ensures Summarizes(s, es, flags, outcome, closed)
  {
    var maximumDrawdown := DeepestFall(es, outcome, closed);
    var total := Total(es, outcome);
    var counts := CountAll(es, flags);
    s := Summary(|es|, counts, total, Mean(total, |es|), maximumDrawdown);
  }

  // ---- What the figures say about each other ----

  lemma {:induction false} CurveEndsAtTheSum<E>(es: seq<E>, outcome: E -> real)
    ensures Curve(0.0, Outcomes(es, outcome))[|es|] == SumBy(es, outcome)
    ensures Curve(0.0, Outcomes(es, outcome))[0] == 0.0
  {
    if es != [] {
      var n := |es| - 1;
      var rs := Outcomes(es, outcome);
      assert rs[..n] == Outcomes(es[..n], outcome);
      CurveEndsAtTheSum(es[..n], outcome);
    }
  }

  lemma {:induction false} InsertAdds<E>(x: E, xs: seq<E>, le: (E, E) -> bool, f: E -> real)
    ensures SumBy(Insert(x, xs, le), f) == SumBy(xs, f) + f(x)
  {
    if xs == [] || le(xs[|xs| - 1], x) {
      SumByAppend(xs, x, f);
    } else {
      var n := |xs| - 1;
      InsertAdds(x, xs[..n], le, f);
      SumByAppend(Insert(x, xs[..n], le), xs[n], f);
    }
  }

  lemma {:induction false} SortKeepsTheSum<E>(es: seq<E>, le: (E, E) -> bool, f: E -> real)
    ensures SumBy(Sort(es, le), f) == SumBy(es, f)
  {
    if es != [] {
      var n := |es| - 1;
      SortKeepsTheSum(es[..n], le, f);
      InsertAdds(es[n], Sort(es[..n], le), le, f);
    }
  }

  /** Sorting by closing time moves no result: the curve starts at zero and ends at the reported total. */
  lemma CurveEndsAtTheTotal<E>(es: seq<E>, outcome: E -> real, closed: E -> int)
    ensures |EquityCurve(es, outcome, closed)| == |es| + 1
    ensures EquityCurve(es, outcome, closed)[0] == 0.0
    ensures EquityCurve(es, outcome, closed)[|es|] == SumBy(es, outcome)
  {
    SortLength(es, ClosesNoLater(closed));
    SortKeepsTheSum(es, ClosesNoLater(closed), outcome);
    CurveEndsAtTheSum(InClosingOrder(es, closed), outcome);
  }

  /** A report never loses more than its maximum drawdown, which is never negative. */
  lemma LossIsWithinTheDrawdown<E>(
      s: Summary, es: seq<E>, flags: seq<E -> bool>, outcome: E -> real, closed: E -> int)
    requires Summarizes(s, es, flags, outcome, closed)
    ensures s.maximumDrawdownR >= 0.0 && s.totalR >= -s.maximumDrawdownR
  {
    CurveEndsAtTheTotal(es, outcome, closed);
    var c := EquityCurve(es, outcome, closed);
    assert c[0] - c[0] <= s.maximumDrawdownR && c[0] - c[|es|] <= s.maximumDrawdownR;
  }

  lemma {:induction false} SortedStays<E>(es: seq<E>, closed: E -> int)
    requires forall i, j :: 0 <= i < j < |es| ==> closed(es[i]) <= closed(es[j])
    ensures InClosingOrder(es, closed) == es
  {
    if es != [] {
      var n := |es| - 1;
      SortedStays(es[..n], closed);
      assert es == es[..n] + [es[n]];
    }
  }

  /** Trades that hold the market one at a time close in the order in which they were executed. */
  lemma OneAtATimeClosesInOrder<E>(start: int, es: seq<E>, openedAt: E -> int, closed: E -> int)
    requires OneAtATime(start, es, openedAt, closed) && forall e :: e in es ==> openedAt(e) <= closed(e)
    ensures InClosingOrder(es, closed) == es
  {
    forall i, j | 0 <= i < j < |es| ensures closed(es[i]) <= closed(es[j]) {
      assert openedAt(es[j]) <= closed(es[j]);
    }
    SortedStays(es, closed);
  }
}
