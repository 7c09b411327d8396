/** The slope is that of the least-squares line: no other line misses the values by less. */
module StabilitySlope {
  import opened Prelude
  import opened Stability

  /** Sum of the squared distances of the values from the line `a + b * t`. */
  function Misfit(ts: seq<real>, vs: seq<real>, a: real, b: real): real
    requires |ts| == |vs|
    decreases |ts|
  {
    if ts == [] then 0.0
    else
      var n := |ts| - 1;
      Misfit(ts[..n], vs[..n], a, b) + Square(Miss(ts[n], vs[n], a, b))
  }

  function Miss(t: real, v: real, a: real, b: real): real {
    v - (a + b * t)
  }

  function Square(x: real): real {
    Times(x, x)
  }

  // ---- Moments of the misses ----

  /** Sum of the misses, each weighted by `c + e * t`. */
  function Weighted(ts: seq<real>, vs: seq<real>, a: real, b: real, c: real, e: real): real
    requires |ts| == |vs|
    decreases |ts|
  {
    if ts == [] then 0.0
    else
      var n := |ts| - 1;
      Weighted(ts[..n], vs[..n], a, b, c, e) + Times(c + e * ts[n], Miss(ts[n], vs[n], a, b))
  }

  lemma SquareOfADifference(r: real, d: real)
    ensures Square(r - d) >= Square(r) - 2.0 * Times(d, r)
  {
    SquareIsNonnegative(d);
    assert (r - d) * (r - d) == r * r - 2.0 * (d * r) + d * d;
  }

  lemma MissesDiffer(t: real, v: real, a: real, b: real, c: real, e: real)
    ensures Miss(t, v, a + c, b + e) == Miss(t, v, a, b) - (c + e * t)
  {
    assert (b + e) * t == b * t + e * t;
  }

  /** A line that differs by `c + e * t` misses by at least as much, less twice the weighted misses. */
  lemma {:induction false} AnotherLineMisses(ts: seq<real>, vs: seq<real>, a: real, b: real, c: real, e: real)
    requires |ts| == |vs|
    ensures Misfit(ts, vs, a + c, b + e) >= Misfit(ts, vs, a, b) - 2.0 * Weighted(ts, vs, a, b, c, e)
    decreases |ts|
  {
    if ts != [] {
      var n := |ts| - 1;
      AnotherLineMisses(ts[..n], vs[..n], a, b, c, e);
      MissesDiffer(ts[n], vs[n], a, b, c, e);
      SquareOfADifference(Miss(ts[n], vs[n], a, b), c + e * ts[n]);
    }
  }

  /** The misses of the line through the means with slope `s`, and their products with the deviations of the times. */
  function MissSum(ts: seq<real>, vs: seq<real>, mt: real, mv: real, s: real): real
    requires |ts| == |vs|
  {
    Deviations(vs, mv) - Times(s, Deviations(ts, mt))
  }

  function MissProducts(ts: seq<real>, vs: seq<real>, mt: real, mv: real, s: real): real
    requires |ts| == |vs|
  {
    Products(ts, vs, mt, mv) - Times(s, Products(ts, ts, mt, mt))
  }

  lemma MoreTimes(s: real, total: real, x: real)
    ensures Times(s, total + x) == Times(s, total) + Times(s, x)
  {
  }

  lemma MissSumGrows(ts: seq<real>, vs: seq<real>, mt: real, mv: real, s: real, n: nat)
    requires |ts| == |vs| == n + 1
    ensures MissSum(ts, vs, mt, mv, s)
         == MissSum(ts[..n], vs[..n], mt, mv, s) + ((vs[n] - mv) - Times(s, ts[n] - mt))
  {
    MoreTimes(s, Deviations(ts[..n], mt), ts[n] - mt);
  }

  lemma ProductOfAMiss(x: real, y: real, s: real)
    ensures Times(x, y) - Times(s, Times(x, x)) == Times(x, y - Times(s, x))
  {
  }

  lemma MissProductsGrow(ts: seq<real>, vs: seq<real>, mt: real, mv: real, s: real, n: nat)
    requires |ts| == |vs| == n + 1
    ensures MissProducts(ts, vs, mt, mv, s)
         == MissProducts(ts[..n], vs[..n], mt, mv, s) + Times(ts[n] - mt, (vs[n] - mv) - Times(s, ts[n] - mt))
  {
    MoreTimes(s, Products(ts[..n], ts[..n], mt, mt), Times(ts[n] - mt, ts[n] - mt));
    ProductOfAMiss(ts[n] - mt, vs[n] - mv, s);
  }

  lemma MissFromTheMeans(t: real, v: real, mt: real, mv: real, s: real)
    ensures Miss(t, v, mv - s * mt, s) == (v - mv) - Times(s, t - mt)
  {
    assert s * (t - mt) == s * t - s * mt;
  }

  lemma WeightFromTheMean(c: real, e: real, t: real, mt: real, r: real)
    ensures Times(c - e * mt + e * t, r) == Times(c, r) + Times(e, Times(t - mt, r))
  {
    var x := t - mt;
    assert c - e * mt + e * t == c + e * x by {
      assert e * x == e * t - e * mt;
    }
    assert (c + e * x) * r == c * r + e * (x * r);
  }

  /** Weighted misses come down to those two sums. */
  lemma {:induction false} WeightedMisses(ts: seq<real>, vs: seq<real>, mt: real, mv: real, s: real, c: real, e: real)
    requires |ts| == |vs|
    ensures Weighted(ts, vs, mv - s * mt, s, c - e * mt, e)
         == Times(c, MissSum(ts, vs, mt, mv, s)) + Times(e, MissProducts(ts, vs, mt, mv, s))
    decreases |ts|
  {
    if ts != [] {
      var n := |ts| - 1;
      WeightedMisses(ts[..n], vs[..n], mt, mv, s, c, e);
      var x, r := ts[n] - mt, Miss(ts[n], vs[n], mv - s * mt, s);
      MissFromTheMeans(ts[n], vs[n], mt, mv, s);
      WeightFromTheMean(c, e, ts[n], mt, r);
      MissSumGrows(ts, vs, mt, mv, s, n);
      MissProductsGrow(ts, vs, mt, mv, s, n);
      MoreTimes(c, MissSum(ts[..n], vs[..n], mt, mv, s), r);
      MoreTimes(e, MissProducts(ts[..n], vs[..n], mt, mv, s), Times(x, r));
    }
  }

  // ---- Least squares ----

  lemma {:induction false} EqualTimesHaveNoProducts(ts: seq<real>, vs: seq<real>, mt: real, mv: real)
    requires |ts| == |vs| && forall i :: 0 <= i < |ts| ==> ts[i] == mt
    ensures Products(ts, vs, mt, mv) == 0.0
    decreases |ts|
  {
    if ts != [] {
      var n := |ts| - 1;
      EqualTimesHaveNoProducts(ts[..n], vs[..n], mt, mv);
      assert Times(0.0, vs[n] - mv) == 0.0;
    }
  }

  lemma SlopeBalances(products: real, squares: real, s: real)
    requires 3600.0 * s == Slope(products, squares) && (squares == 0.0 ==> products == 0.0)
    ensures products - Times(s, squares) == 0.0
  {
    if squares != 0.0 {
      assert s == products / squares;
    }
  }

  lemma SlopeOverTheMeans(ts: seq<real>, vs: seq<real>, mt: real, mv: real)
    requires |ts| == |vs| && ts != [] && mt == Mean(ts) && mv == Mean(vs)
    ensures SlopePerHour(ts, vs) == Slope(Products(ts, vs, mt, mv), Products(ts, ts, mt, mt))
    ensures Deviations(ts, mt) == 0.0 && Deviations(vs, mv) == 0.0
  {
    DeviationsFromTheMeanCancel(ts);
    DeviationsFromTheMeanCancel(vs);
  }

  /** The misses of the reported line cancel, and so do their products with the deviations of the times. */
  lemma MissesCancel(ts: seq<real>, vs: seq<real>, mt: real, mv: real, s: real)
    requires |ts| == |vs| && ts != [] && mt == Mean(ts) && mv == Mean(vs) && 3600.0 * s == SlopePerHour(ts, vs)
    ensures MissSum(ts, vs, mt, mv, s) == 0.0 && MissProducts(ts, vs, mt, mv, s) == 0.0
  {
    SlopeOverTheMeans(ts, vs, mt, mv);
    SquaresAreNonnegative(ts, mt);
    if Products(ts, ts, mt, mt) == 0.0 {
      EqualTimesHaveNoProducts(ts, vs, mt, mv);
    }
    SlopeBalances(Products(ts, vs, mt, mv), Products(ts, ts, mt, mt), s);
    assert Times(s, 0.0) == 0.0;
  }

  /** Among all lines the one through the means with the reported slope misses the values by least. */
  lemma SlopeIsLeastSquares(ts: seq<real>, vs: seq<real>, mt: real, mv: real, s: real, a: real, b: real)
    requires |ts| == |vs| && ts != [] && mt == Mean(ts) && mv == Mean(vs) && 3600.0 * s == SlopePerHour(ts, vs)
    ensures Misfit(ts, vs, mv - s * mt, s) <= Misfit(ts, vs, a, b)
  {
    MissesCancel(ts, vs, mt, mv, s);
    var e, best := b - s, mv - s * mt;
    var c := a - best + e * mt;
    LeastOf(ts, vs, mt, mv, s, best, c, e);
    assert best + (c - e * mt) == a && s + e == b;
  }

  lemma LeastOf(ts: seq<real>, vs: seq<real>, mt: real, mv: real, s: real, best: real, c: real, e: real)
    requires |ts| == |vs| && best == mv - s * mt
    requires MissSum(ts, vs, mt, mv, s) == 0.0 && MissProducts(ts, vs, mt, mv, s) == 0.0
    ensures Misfit(ts, vs, best + (c - e * mt), s + e) >= Misfit(ts, vs, best, s)
  {
    WeightedMisses(ts, vs, mt, mv, s, c, e);
    AnotherLineMisses(ts, vs, best, s, c - e * mt, e);
    assert Times(c, 0.0) + Times(e, 0.0) == 0.0;
  }
}
