/** The running equity-peak loop that closes every replay and the trade summary. */
module Drawdown {
  import opened Prelude

  /** The equity curve: where it starts, and where it stands after each result. */
  function Curve(start: real, rs: seq<real>): (c: seq<real>)
    ensures |c| == |rs| + 1
  {
    if rs == [] then [start]
    else
      var before := Curve(start, rs[..|rs| - 1]);
      before + [before[|rs| - 1] + rs[|rs| - 1]]
  }

  /** `dd` is the deepest fall of a curve from an earlier point to a later one. */
  ghost predicate IsMaximumDrawdown(c: seq<real>, dd: real) {
    && (forall i, j :: 0 <= i <= j < |c| ==> c[i] - c[j] <= dd)
    && (exists i, j :: 0 <= i <= j < |c| && c[i] - c[j] == dd)
  }

  ghost predicate IsPeak(c: seq<real>, peak: real) {
    && (forall i :: 0 <= i < |c| ==> c[i] <= peak)
    && (exists i :: 0 <= i < |c| && c[i] == peak)
  }

  lemma Advance(c: seq<real>, equity: real, peak: real, dd: real)
    requires IsPeak(c, peak) && IsMaximumDrawdown(c, dd)
    ensures var peak' := Max(peak, equity);
            IsPeak(c + [equity], peak') && IsMaximumDrawdown(c + [equity], Max(dd, peak' - equity))
  {
    var d, n := c + [equity], |c|;
    var p :| 0 <= p < n && c[p] == peak;
    assert d[p] == peak && d[n] == equity;
    var i, j :| 0 <= i <= j < n && c[i] - c[j] == dd;
    assert d[i] - d[j] == dd;
    assert d[n] - d[n] == 0.0;
    assert c[i] - c[i] == 0.0;
  }

  /** Where a curve stands, its peak and its deepest fall. */
  ghost predicate AreFigures(c: seq<real>, equity: real, peak: real, dd: real) {
    c != [] && equity == c[|c| - 1] && IsPeak(c, peak) && IsMaximumDrawdown(c, dd)
  }

  lemma FirstFigures(start: real)
    ensures AreFigures([start], start, start, 0.0)
  {
    assert [start][0] == start && [start][0] - [start][0] == 0.0;
  }

  lemma NextFigures(start: real, rs: seq<real>, n: nat, equity: real, peak: real, dd: real)
    requires n < |rs| && AreFigures(Curve(start, rs[..n]), equity, peak, dd)
    ensures var next := equity + rs[n];
            AreFigures(Curve(start, rs[..n + 1]), next, Max(peak, next), Max(dd, Max(peak, next) - next))
  {
    assert rs[..n + 1][..n] == rs[..n];
    Advance(Curve(start, rs[..n]), equity + rs[n], peak, dd);
  }

  method MaximumDrawdown(start: real, rs: seq<real>) returns (equity: real, peak: real, maximumDrawdown: real)
    ensures equity == Curve(start, rs)[|rs|]
    ensures IsPeak(Curve(start, rs), peak)
    ensures IsMaximumDrawdown(Curve(start, rs), maximumDrawdown)
  {
    equity, peak, maximumDrawdown := start, start, 0.0;
    FirstFigures(start);
    for n := 0 to |rs|
      invariant AreFigures(Curve(start, rs[..n]), equity, peak, maximumDrawdown)
    {
      NextFigures(start, rs, n, equity, peak, maximumDrawdown);
      equity := equity + rs[n];
      peak := Max(peak, equity);
      maximumDrawdown := Max(maximumDrawdown, peak - equity);
    }
    assert rs[..|rs|] == rs;
  }

  lemma {:induction false} CurveShift(a: real, b: real, rs: seq<real>)
    ensures forall k :: 0 <= k <= |rs| ==> Curve(b, rs)[k] == Curve(a, rs)[k] + (b - a)
  {
    if rs != [] {
      CurveShift(a, b, rs[..|rs| - 1]);
    }
  }

  /** The figure is determined by the curve, and the starting equity cancels out of it. */
  lemma DrawdownIgnoresStart(a: real, b: real, rs: seq<real>, x: real, y: real)
    requires IsMaximumDrawdown(Curve(a, rs), x) && IsMaximumDrawdown(Curve(b, rs), y)
    ensures x == y
  {
    CurveShift(a, b, rs);
    var i, j :| 0 <= i <= j <= |rs| && Curve(a, rs)[i] - Curve(a, rs)[j] == x;
    var k, l :| 0 <= k <= l <= |rs| && Curve(b, rs)[k] - Curve(b, rs)[l] == y;
    assert Curve(b, rs)[i] - Curve(b, rs)[j] == x;
    assert Curve(a, rs)[k] - Curve(a, rs)[l] == y;
  }
}
