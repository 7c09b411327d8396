/** Resource trends: least-squares slope, balanced windows, and the leak verdict. */
module Stability {
  import opened Prelude
  import opened Sorting

  // ---- Slope ----

  function Mean(xs: seq<real>): real
    requires xs != []
  {
    Sum(xs) / |xs| as real
  }

  function Times(x: real, y: real): real {
    x * y
  }

  /** Sum of the products of the deviations from `mt` and `mv`. */
  function Products(ts: seq<real>, vs: seq<real>, mt: real, mv: real): real
    requires |ts| == |vs|
    decreases |ts|
  {
    if ts == [] then 0.0
    else
      var n := |ts| - 1;
      Products(ts[..n], vs[..n], mt, mv) + Times(ts[n] - mt, vs[n] - mv)
  }

  function Slope(products: real, squares: real): real {
    if squares == 0.0 then 0.0 else products / squares * 3600.0
  }

  function SlopePerHour(ts: seq<real>, vs: seq<real>): real
    requires |ts| == |vs| && ts != []
  {
    Slope(Products(ts, vs, Mean(ts), Mean(vs)), Products(ts, ts, Mean(ts), Mean(ts)))
  }

  predicate Increasing(xs: seq<real>) {
    forall i, j :: 0 <= i < j < |xs| ==> xs[i] < xs[j]
  }

  predicate Nondecreasing(xs: seq<real>) {
    forall i, j :: 0 <= i < j < |xs| ==> xs[i] <= xs[j]
  }

  function Deviations(ts: seq<real>, m: real): real {
    if ts == [] then 0.0 else Deviations(ts[..|ts| - 1], m) + (ts[|ts| - 1] - m)
  }

  lemma {:induction false} DeviationsAreSumMinusMeans(ts: seq<real>, m: real)
    ensures Deviations(ts, m) == Sum(ts) - |ts| as real * m
  {
    if ts != [] {
      var n := |ts| - 1;
      DeviationsAreSumMinusMeans(ts[..n], m);
      assert |ts| as real * m == n as real * m + m;
    }
  }

  lemma DeviationsFromTheMeanCancel(ts: seq<real>)
    requires ts != []
    ensures Deviations(ts, Mean(ts)) == 0.0
  {
    DeviationsAreSumMinusMeans(ts, Mean(ts));
    assert |ts| as real * (Sum(ts) / |ts| as real) == Sum(ts);
  }

  lemma ShiftOne(p: real, d: real, x: real, v: real, mv: real, c: real)
    ensures p + Times(c - mv, d) + Times(x, v - mv) == p + Times(x, v - c) + Times(c - mv, d + x)
  {
    assert x * (v - mv) == x * (v - c) + x * (c - mv);
    assert (c - mv) * (d + x) == (c - mv) * d + (c - mv) * x;
  }

  /** Measuring the values from another level changes the sum by that level times the deviations of the times. */
  lemma {:induction false} ShiftedLevel(ts: seq<real>, vs: seq<real>, mt: real, mv: real, c: real)
    requires |ts| == |vs|
    ensures Products(ts, vs, mt, mv) == Products(ts, vs, mt, c) + Times(c - mv, Deviations(ts, mt))
    decreases |ts|
  {
    if ts != [] {
      var n := |ts| - 1;
      ShiftedLevel(ts[..n], vs[..n], mt, mv, c);
      ShiftOne(Products(ts[..n], vs[..n], mt, c), Deviations(ts[..n], mt), ts[n] - mt, vs[n], mv, c);
    }
  }

  lemma SameSign(a: real, b: real)
    requires (a <= 0.0 && b <= 0.0) || (a >= 0.0 && b >= 0.0)
    ensures Times(a, b) >= 0.0
  {
  }

  lemma {:induction false} AgreeingDeviationsAddUp(ts: seq<real>, vs: seq<real>, mt: real, c: real)
    requires |ts| == |vs|
    requires forall i :: 0 <= i < |ts| ==> (ts[i] <= mt && vs[i] <= c) || (ts[i] >= mt && vs[i] >= c)
    ensures Products(ts, vs, mt, c) >= 0.0
    decreases |ts|
  {
    if ts != [] {
      var n := |ts| - 1;
      AgreeingDeviationsAddUp(ts[..n], vs[..n], mt, c);
      SameSign(ts[n] - mt, vs[n] - c);
    }
  }

  /** The first time at or after the mean, if any. */
  function Crossing(ts: seq<real>, mt: real): (k: nat)
    ensures k <= |ts| && (k < |ts| ==> ts[k] >= mt) && forall i :: 0 <= i < k ==> ts[i] < mt
  {
    if ts == [] then 0
    else
      var k := Crossing(ts[..|ts| - 1], mt);
      if k < |ts| - 1 || ts[|ts| - 1] >= mt then k else |ts|
  }

  /** Chebyshev's sum inequality for increasing times and nondecreasing values. */
  lemma ProductsAreNonnegative(ts: seq<real>, vs: seq<real>)
    requires |ts| == |vs| && ts != [] && Nondecreasing(ts) && Nondecreasing(vs)
    ensures Products(ts, vs, Mean(ts), Mean(vs)) >= 0.0
  {
    var mt, k := Mean(ts), Crossing(ts, Mean(ts));
    var c := if k < |ts| then vs[k] else vs[|vs| - 1];
    forall i | 0 <= i < |ts| ensures (ts[i] <= mt && vs[i] <= c) || (ts[i] >= mt && vs[i] >= c) {
      assert k < i ==> ts[k] <= ts[i] && vs[k] <= vs[i];
      assert i < |vs| - 1 ==> vs[i] <= vs[|vs| - 1];
    }
    AgreeingDeviationsAddUp(ts, vs, mt, c);
    ShiftedLevel(ts, vs, mt, Mean(vs), c);
    DeviationsFromTheMeanCancel(ts);
  }

  lemma {:induction false} SquaresAreNonnegative(ts: seq<real>, m: real)
    ensures Products(ts, ts, m, m) >= 0.0
    ensures Products(ts, ts, m, m) == 0.0 ==> forall i :: 0 <= i < |ts| ==> ts[i] == m
  {
    if ts != [] {
      var n := |ts| - 1;
      SquaresAreNonnegative(ts[..n], m);
      SquareIsNonnegative(ts[n] - m);
    }
  }

  lemma SquareIsNonnegative(x: real)
    ensures Times(x, x) >= 0.0
    ensures x != 0.0 ==> Times(x, x) > 0.0
  {
    if x > 0.0 {
      PositiveProduct(x, x);
    } else if x < 0.0 {
      PositiveProduct(-x, -x);
      NegatedProduct(x, x);
    }
  }

  lemma PositiveProduct(x: real, y: real)
    requires x > 0.0 && y > 0.0
    ensures Times(x, y) > 0.0
  {
  }

  lemma NegatedProduct(x: real, y: real)
    ensures Times(-x, -y) == Times(x, y)
  {
  }

  lemma SlopeSign(products: real, squares: real)
    requires products >= 0.0 && squares >= 0.0
    ensures Slope(products, squares) >= 0.0
  {
    if squares > 0.0 {
      DivMonotone(0.0, products, squares);
    }
  }

  /** A series that never falls has no negative slope. */
  lemma RisingSeriesHaveNonnegativeSlope(ts: seq<real>, vs: seq<real>)
    requires |ts| == |vs| && ts != [] && Nondecreasing(ts) && Nondecreasing(vs)
    ensures SlopePerHour(ts, vs) >= 0.0
  {
    ProductsAreNonnegative(ts, vs);
    SquaresAreNonnegative(ts, Mean(ts));
    SlopeSign(Products(ts, vs, Mean(ts), Mean(vs)), Products(ts, ts, Mean(ts), Mean(ts)));
  }

  // ---- Linear series ----

  function Affine(a: real, b: real, x: real): real {
    a * x + b
  }

  function Mapped(xs: seq<real>, a: real, b: real): seq<real> {
    seq(|xs|, i requires 0 <= i < |xs| => Affine(a, b, xs[i]))
  }

  lemma MappedPrefix(xs: seq<real>, a: real, b: real)
    requires xs != []
    ensures Mapped(xs, a, b)[..|xs| - 1] == Mapped(xs[..|xs| - 1], a, b)
  {
  }

  lemma {:induction false} SumOfMapped(xs: seq<real>, a: real, b: real)
    ensures Sum(Mapped(xs, a, b)) == a * Sum(xs) + b * |xs| as real
  {
    if xs != [] {
      var n := |xs| - 1;
      MappedPrefix(xs, a, b);
      SumOfMapped(xs[..n], a, b);
      assert a * (Sum(xs[..n]) + xs[n]) == a * Sum(xs[..n]) + a * xs[n];
      assert b * |xs| as real == b * n as real + b;
    }
  }

  lemma MeanOfMapped(xs: seq<real>, a: real, b: real)
    requires xs != []
    ensures Mean(Mapped(xs, a, b)) == Affine(a, b, Mean(xs))
  {
    SumOfMapped(xs, a, b);
    AffineQuotient(Sum(Mapped(xs, a, b)), Sum(xs), |xs| as real, a, b);
  }

  lemma AffineQuotient(t: real, s: real, n: real, a: real, b: real)
    requires n > 0.0 && t == a * s + b * n
    ensures t / n == Affine(a, b, s / n)
  {
    assert s / n * n == s;
    assert a * (s / n) * n == a * (s / n * n);
    assert (a * (s / n) + b) * n == a * (s / n) * n + b * n;
    QuotientIs(Affine(a, b, s / n), t, n);
  }

  lemma ScaledStep(q: real, p: real, x: real, d: real, e: real, a: real)
    requires q == Times(a, p) && e == Times(a, d)
    ensures q + Times(x, e) == Times(a, p + Times(x, d))
  {
    assert x * (a * d) == a * (x * d);
    assert a * (p + x * d) == a * p + a * (x * d);
  }

  lemma {:induction false} ProductsOfScaled(ts: seq<real>, vs: seq<real>, ws: seq<real>, mt: real, mv: real, mw: real,
      a: real)
    requires |ts| == |vs| == |ws| && forall i :: 0 <= i < |ws| ==> ws[i] - mw == Times(a, vs[i] - mv)
    ensures Products(ts, ws, mt, mw) == Times(a, Products(ts, vs, mt, mv))
    decreases |ts|
  {
    if ts != [] {
      var n := |ts| - 1;
      ProductsOfScaled(ts[..n], vs[..n], ws[..n], mt, mv, mw, a);
      ScaledStep(Products(ts[..n], ws[..n], mt, mw), Products(ts[..n], vs[..n], mt, mv), ts[n] - mt, vs[n] - mv,
        ws[n] - mw, a);
    }
  }

  lemma AffineDifference(a: real, b: real, x: real, y: real)
    ensures Affine(a, b, x) - Affine(a, b, y) == Times(a, x - y)
  {
  }

  lemma ProductsScale(ts: seq<real>, vs: seq<real>, mt: real, mv: real, a: real, b: real)
    requires |ts| == |vs|
    ensures Products(ts, Mapped(vs, a, b), mt, Affine(a, b, mv)) == Times(a, Products(ts, vs, mt, mv))
  {
    forall i | 0 <= i < |vs| ensures Mapped(vs, a, b)[i] - Affine(a, b, mv) == Times(a, vs[i] - mv) {
      AffineDifference(a, b, vs[i], mv);
    }
    ProductsOfScaled(ts, vs, Mapped(vs, a, b), mt, mv, Affine(a, b, mv), a);
  }

  lemma SlopeScales(products: real, squares: real, a: real)
    ensures Slope(Times(a, products), squares) == Times(a, Slope(products, squares))
  {
    if squares != 0.0 {
      assert a * products / squares == a * (products / squares) by {
        assert products / squares * squares == products;
        assert a * (products / squares) * squares == a * (products / squares * squares);
      }
    }
  }

  /** The slope follows a change of unit or origin of the values. */
  lemma SlopeIsLinear(ts: seq<real>, vs: seq<real>, a: real, b: real)
    requires |ts| == |vs| && ts != []
    ensures SlopePerHour(ts, Mapped(vs, a, b)) == Times(a, SlopePerHour(ts, vs))
  {
    SlopeOfMapped(ts, vs, a, b, Mean(ts), Mean(vs));
  }

  lemma SlopeOfMapped(ts: seq<real>, vs: seq<real>, a: real, b: real, mt: real, mv: real)
    requires |ts| == |vs| && ts != [] && mv == Mean(vs)
    ensures Slope(Products(ts, Mapped(vs, a, b), mt, Mean(Mapped(vs, a, b))), Products(ts, ts, mt, mt))
         == Times(a, Slope(Products(ts, vs, mt, mv), Products(ts, ts, mt, mt)))
  {
    MeanOfMapped(vs, a, b);
    ProductsScale(ts, vs, mt, mv, a, b);
    SlopeScales(Products(ts, vs, mt, mv), Products(ts, ts, mt, mt), a);
  }

  lemma TimesHaveUnitSlope(ts: seq<real>)
    requires |ts| >= 2 && Increasing(ts)
    ensures SlopePerHour(ts, ts) == 3600.0
  {
    SquaresAreNonnegative(ts, Mean(ts));
    assert ts[0] < ts[1];
    UnitSlope(Products(ts, ts, Mean(ts), Mean(ts)));
  }

  lemma UnitSlope(squares: real)
    requires squares != 0.0
    ensures Slope(squares, squares) == 3600.0
  {
    assert squares / squares == 1.0;
  }

  /** An exactly linear series has exactly its rate, per hour. */
  lemma LinearSeriesReturnTheirRate(ts: seq<real>, a: real, b: real)
    requires |ts| >= 2 && Increasing(ts)
    ensures SlopePerHour(ts, Mapped(ts, a, b)) == a * 3600.0
  {
    SlopeIsLinear(ts, ts, a, b);
    TimesHaveUnitSlope(ts);
  }
}
