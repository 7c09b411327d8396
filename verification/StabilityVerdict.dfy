/** The leak verdict ignores unit and origin of the series, and catches every steady climb. */
module StabilityVerdict {
  import opened Prelude
  import opened Sorting
  import opened Stability
  import opened StabilityTrend

  // ---- Order statistics follow an increasing affine map ----

  lemma OrderKept(a: real, b: real, x: real, y: real)
    requires a > 0.0
    ensures AtMost(Affine(a, b, x), Affine(a, b, y)) <==> AtMost(x, y)
  {
    AffineDifference(a, b, y, x);
    if x <= y {
      SameSign(a, y - x);
    } else {
      PositiveProduct(a, x - y);
      AffineDifference(a, b, x, y);
    }
  }

  lemma MappedAppend(xs: seq<real>, x: real, a: real, b: real)
    ensures Mapped(xs + [x], a, b) == Mapped(xs, a, b) + [Affine(a, b, x)]
  {
  }

  lemma {:induction false} InsertMapped(x: real, xs: seq<real>, a: real, b: real)
    requires a > 0.0
    ensures Insert(Affine(a, b, x), Mapped(xs, a, b), AtMost) == Mapped(Insert(x, xs, AtMost), a, b)
  {
    if xs == [] {
      MappedAppend(xs, x, a, b);
    } else {
      var n := |xs| - 1;
      OrderKept(a, b, xs[n], x);
      MappedPrefix(xs, a, b);
      if AtMost(xs[n], x) {
        MappedAppend(xs, x, a, b);
      } else {
        InsertMapped(x, xs[..n], a, b);
        MappedAppend(Insert(x, xs[..n], AtMost), xs[n], a, b);
      }
    }
  }

  lemma {:induction false} SortMapped(xs: seq<real>, a: real, b: real)
    requires a > 0.0
    ensures Sort(Mapped(xs, a, b), AtMost) == Mapped(Sort(xs, AtMost), a, b)
  {
    if xs != [] {
      var n := |xs| - 1;
      MappedPrefix(xs, a, b);
      SortMapped(xs[..n], a, b);
      InsertMapped(xs[n], Sort(xs[..n], AtMost), a, b);
    }
  }

  lemma MidpointMapped(a: real, b: real, x: real, y: real)
    ensures (Affine(a, b, x) + Affine(a, b, y)) / 2.0 == Affine(a, b, (x + y) / 2.0)
  {
    assert a * ((x + y) / 2.0) == (a * x + a * y) / 2.0;
  }

  lemma MedianMapped(xs: seq<real>, a: real, b: real)
    requires xs != [] && a > 0.0
    ensures Median(Mapped(xs, a, b)) == Affine(a, b, Median(xs))
  {
    SortMapped(xs, a, b);
    SortLength(xs, AtMost);
    var s := Sort(xs, AtMost);
    if |s| % 2 == 0 {
      MidpointMapped(a, b, s[|s| / 2 - 1], s[|s| / 2]);
    }
  }

  lemma BlendMapped(a: real, b: real, x: real, y: real, w: real)
    ensures Times(Affine(a, b, x), 1.0 - w) + Times(Affine(a, b, y), w) == Affine(a, b, Times(x, 1.0 - w) + Times(y, w))
  {
    assert (a * x + b) * (1.0 - w) == a * (x * (1.0 - w)) + b * (1.0 - w);
    assert (a * y + b) * w == a * (y * w) + b * w;
    assert b * (1.0 - w) + b * w == b;
    assert a * (x * (1.0 - w) + y * w) == a * (x * (1.0 - w)) + a * (y * w);
  }

  lemma InterpolatedMapped(s: seq<real>, position: real, a: real, b: real)
    requires s != [] && 0.0 <= position <= (|s| - 1) as real
    ensures Interpolated(Mapped(s, a, b), position) == Affine(a, b, Interpolated(s, position))
  {
    var lower := position.Floor;
    var upper := if lower + 1 < |s| then lower + 1 else |s| - 1;
    BlendMapped(a, b, s[lower], s[upper], position - lower as real);
  }

  lemma PercentileMapped(xs: seq<real>, f: real, a: real, b: real)
    requires xs != [] && IsFraction(f) && a > 0.0
    ensures Percentile(Mapped(xs, a, b), f) == Affine(a, b, Percentile(xs, f))
  {
    SortMapped(xs, a, b);
    SortLength(xs, AtMost);
    PercentileOfMapped(Sort(xs, AtMost), f, a, b);
  }

  lemma PercentileOfMapped(s: seq<real>, f: real, a: real, b: real)
    requires s != [] && IsFraction(f)
    ensures PercentileOf(Mapped(s, a, b), f) == Affine(a, b, PercentileOf(s, f))
  {
    PositionInRange(|s|, f);
    InterpolatedMapped(s, Position(|s|, f), a, b);
  }

  lemma SpreadMapped(w: seq<real>, a: real, b: real)
    requires w != [] && a > 0.0
    ensures Spread(Mapped(w, a, b)) == Times(a, Spread(w))
  {
    PercentileMapped(w, 0.95, a, b);
    PercentileMapped(w, 0.05, a, b);
    AffineDifference(a, b, Percentile(w, 0.95), Percentile(w, 0.05));
  }

  // ---- Windows, noise and verdict ----

  function MappedAll(ws: seq<seq<real>>, a: real, b: real): seq<seq<real>> {
    seq(|ws|, i requires 0 <= i < |ws| => Mapped(ws[i], a, b))
  }

  lemma MappedSlices(xs: seq<real>, a: real, b: real, n: nat)
    requires n <= |xs|
    ensures Mapped(xs, a, b)[..n] == Mapped(xs[..n], a, b) && Mapped(xs, a, b)[n..] == Mapped(xs[n..], a, b)
  {
  }

  lemma {:induction false} WindowsMapped(xs: seq<real>, k: nat, width: nat, extra: nat, a: real, b: real)
    requires |xs| == Needed(k, width, extra)
    ensures WindowsFrom(Mapped(xs, a, b), k, width, extra) == MappedAll(WindowsFrom(xs, k, width, extra), a, b)
    decreases k
  {
    if k > 0 {
      var n := Longer(width, extra);
      MappedSlices(xs, a, b, n);
      WindowsMapped(xs[n..], k - 1, width, Fewer(extra), a, b);
    }
  }

  lemma ScaledMax(a: real, x: real, y: real)
    requires a > 0.0
    ensures Max(Times(a, x), Times(a, y)) == Times(a, Max(x, y))
  {
    if x >= y {
      SameSign(a, x - y);
      assert a * (x - y) == a * x - a * y;
    } else {
      SameSign(a, y - x);
      assert a * (y - x) == a * y - a * x;
    }
  }

  lemma {:induction false} NoiseMapped(ws: seq<seq<real>>, a: real, b: real)
    requires AllNonempty(ws) && a > 0.0
    ensures AllNonempty(MappedAll(ws, a, b)) && Noise(MappedAll(ws, a, b)) == Times(a, Noise(ws))
  {
    if ws != [] {
      var n := |ws| - 1;
      SpreadMapped(ws[n], a, b);
      if n > 0 {
        NoiseMapped(ws[..n], a, b);
        assert MappedAll(ws, a, b)[..n] == MappedAll(ws[..n], a, b);
        ScaledMax(a, Noise(ws[..n]), Spread(ws[n]));
      }
    }
  }

  lemma MediansMapped(ws: seq<seq<real>>, a: real, b: real)
    requires AllNonempty(ws) && a > 0.0
    ensures AllNonempty(MappedAll(ws, a, b)) && Medians(MappedAll(ws, a, b)) == Mapped(Medians(ws), a, b)
  {
    forall i | 0 <= i < |ws| ensures Median(Mapped(ws[i], a, b)) == Affine(a, b, Median(ws[i])) {
      MedianMapped(ws[i], a, b);
    }
  }

  lemma ScaledOrder(a: real, x: real, y: real)
    requires a > 0.0
    ensures Times(a, x) > Times(a, y) <==> x > y
  {
    if x > y {
      PositiveProduct(a, x - y);
      assert a * (x - y) == a * x - a * y;
    } else {
      SameSign(a, y - x);
      assert a * (y - x) == a * y - a * x;
    }
  }

  lemma RiseMapped(ms: seq<real>, a: real, b: real)
    requires a > 0.0
    ensures Rises(Mapped(ms, a, b)) <==> Rises(ms)
  {
    forall i, j | 0 <= i < |ms| && 0 <= j < |ms| ensures Mapped(ms, a, b)[i] < Mapped(ms, a, b)[j] <==> ms[i] < ms[j] {
      OrderKept(a, b, ms[j], ms[i]);
    }
  }

  lemma LeakMapped(ms: seq<real>, noise: real, a: real, b: real)
    requires a > 0.0
    ensures IsLeak(Mapped(ms, a, b), Times(a, noise)) <==> IsLeak(ms, noise)
  {
    RiseMapped(ms, a, b);
    if |ms| >= 2 {
      AffineDifference(a, b, ms[|ms| - 1], ms[|ms| - 2]);
      ScaledOrder(a, OngoingGrowth(ms), noise);
    }
  }

  lemma WarmWindowsMapped(values: seq<real>, a: real, b: real)
    requires |values| >= 2
    ensures WindowsAfterWarmup(Mapped(values, a, b)) == MappedAll(WindowsAfterWarmup(values), a, b)
  {
    var n := Warmup(|values|);
    var k := WindowCount(|values| - n);
    MappedSlices(values, a, b, n);
    WindowsCoverEverything(|values| - n);
    WindowsMapped(values[n..], k, (|values| - n) / k, (|values| - n) % k, a, b);
  }

  /** Changing the unit or the origin of a series never changes the verdict. */
  lemma VerdictIgnoresUnitAndOrigin(values: seq<real>, a: real, b: real)
    requires |values| >= 2 && a > 0.0
    ensures Leak(Mapped(values, a, b)) == Leak(values)
  {
    var ws := WindowsAfterWarmup(values);
    WarmWindowsMapped(values, a, b);
    MediansMapped(ws, a, b);
    NoiseMapped(ws, a, b);
    LeakMapped(Medians(ws), Noise(ws), a, b);
  }

  // ---- A steady climb ----

  /** The whole numbers from `from` on. */
  function Ramp(from: int, n: nat): seq<real> {
    seq(n, i requires 0 <= i < n => (from + i) as real)
  }

  lemma {:induction false} SortKeepsOrder(xs: seq<real>)
    requires Increasing(xs)
    ensures Sort(xs, AtMost) == xs
  {
    if xs != [] {
      var n := |xs| - 1;
      SortKeepsOrder(xs[..n]);
      assert n > 0 ==> AtMost(xs[..n][n - 1], xs[n]);
      Snoc(xs);
    }
  }

  lemma Halves(n: nat)
    ensures (n / 2) as real == if n % 2 == 1 then (n - 1) as real / 2.0 else n as real / 2.0
  {
    assert n == 2 * (n / 2) + n % 2;
  }

  lemma RampMiddle(from: int, n: nat)
    requires n > 0
    ensures Middle(Ramp(from, n)) == from as real + (n - 1) as real / 2.0
  {
    Halves(n);
  }

  lemma RampMedian(from: int, n: nat)
    requires n > 0
    ensures Median(Ramp(from, n)) == from as real + (n - 1) as real / 2.0
  {
    SortKeepsOrder(Ramp(from, n));
    RampMiddle(from, n);
  }

  lemma RampInterpolates(from: int, n: nat, position: real)
    requires n > 0 && 0.0 <= position <= (n - 1) as real
    ensures Interpolated(Ramp(from, n), position) == from as real + position
  {
    var lower := position.Floor;
    if lower + 1 < n {
      Between((from + lower) as real, position - lower as real);
    } else {
      Blend((from + lower) as real, position - lower as real);
    }
  }

  lemma Between(x: real, w: real)
    ensures Times(x, 1.0 - w) + Times(x + 1.0, w) == x + w
  {
  }

  lemma Blend(x: real, w: real)
    ensures Times(x, 1.0 - w) + Times(x, w) == x
  {
  }

  lemma RampPercentile(from: int, n: nat, f: real)
    requires n > 0 && IsFraction(f)
    ensures Percentile(Ramp(from, n), f) == from as real + Position(n, f)
  {
    SortKeepsOrder(Ramp(from, n));
    RampPercentileOf(from, n, f);
  }

  lemma RampPercentileOf(from: int, n: nat, f: real)
    requires n > 0 && IsFraction(f)
    ensures PercentileOf(Ramp(from, n), f) == from as real + Position(n, f)
  {
    PositionInRange(n, f);
    RampInterpolates(from, n, Position(n, f));
  }

  lemma RampSpread(from: int, n: nat)
    requires n > 0
    ensures Spread(Ramp(from, n)) == (n - 1) as real * 0.9
  {
    RampPercentile(from, n, 0.95);
    RampPercentile(from, n, 0.05);
  }

  /** Windows of a ramp are ramps, each starting where the one before ended. */
  ghost predicate AreRamps(ws: seq<seq<real>>, starts: seq<int>, width: nat) {
    && |starts| == |ws|
    && (forall i :: 0 <= i < |ws| ==> width <= |ws[i]| <= width + 1 && ws[i] == Ramp(starts[i], |ws[i]|))
    && (forall i, j :: 0 <= i < |ws| && 0 <= j < |ws| && j == i + 1 ==> starts[j] == starts[i] + |ws[i]|)
  }

  lemma {:induction false} RampWindows(from: int, k: nat, width: nat, extra: nat) returns (starts: seq<int>)
    ensures AreRamps(WindowsFrom(Ramp(from, Needed(k, width, extra)), k, width, extra), starts, width)
    ensures k > 0 ==> starts[0] == from
    decreases k
  {
    if k == 0 {
      starts := [];
    } else {
      var n, all := Longer(width, extra), Ramp(from, Needed(k, width, extra));
      assert all[..n] == Ramp(from, n);
      assert all[n..] == Ramp(from + n, Needed(k - 1, width, Fewer(extra)));
      var rest := RampWindows(from + n, k - 1, width, Fewer(extra));
      starts := [from] + rest;
      RampsPrepend(Ramp(from, n), from, WindowsFrom(all[n..], k - 1, width, Fewer(extra)), rest, width);
    }
  }

  lemma RampsPrepend(w: seq<real>, from: int, ws: seq<seq<real>>, starts: seq<int>, width: nat)
    requires AreRamps(ws, starts, width) && width <= |w| <= width + 1 && w == Ramp(from, |w|)
    requires ws != [] ==> starts[0] == from + |w|
    ensures AreRamps([w] + ws, [from] + starts, width)
  {
    var all, at := [w] + ws, [from] + starts;
    forall i, j | 0 <= i < |all| && 0 <= j < |all| && j == i + 1 ensures at[j] == at[i] + |all[i]| {
      if i > 0 {
        var h, k := i - 1, j - 1;
        assert all[i] == ws[h] && at[i] == starts[h] && at[j] == starts[k];
      }
    }
  }

  lemma {:induction false} RampNoise(ws: seq<seq<real>>, starts: seq<int>, width: nat)
    requires AreRamps(ws, starts, width) && width > 0
    ensures AllNonempty(ws) && Noise(ws) <= width as real * 0.9
  {
    if ws != [] {
      var n := |ws| - 1;
      RampSpread(starts[n], |ws[n]|);
      if n > 0 {
        RampNoise(ws[..n], starts[..n], width);
      }
    }
  }

  lemma RampGrowth(ws: seq<seq<real>>, starts: seq<int>, width: nat, i: nat, j: nat)
    requires AreRamps(ws, starts, width) && width > 0 && j == i + 1 < |ws|
    ensures Median(ws[j]) - Median(ws[i]) >= width as real
  {
    RampMedian(starts[i], |ws[i]|);
    RampMedian(starts[j], |ws[j]|);
  }

  lemma RampsAreALeak(ws: seq<seq<real>>, starts: seq<int>, width: nat)
    requires AreRamps(ws, starts, width) && width > 0 && |ws| >= 3
    ensures AllNonempty(ws) && IsLeak(Medians(ws), Noise(ws))
  {
    RampNoise(ws, starts, width);
    forall i, j | 0 <= i < |ws| && 0 <= j < |ws| && j == i + 1 ensures Median(ws[j]) - Median(ws[i]) >= width as real {
      RampGrowth(ws, starts, width, i, j);
    }
    RampGrowth(ws, starts, width, |ws| - 2, |ws| - 1);
  }

  /** Counting up is flagged exactly when there are samples for three windows. */
  lemma RampIsFlagged(n: nat)
    requires n >= 2
    ensures Leak(Ramp(0, n)) <==> n >= 4
  {
    var u := Warmup(n);
    var k := WindowCount(n - u);
    WindowsCoverEverything(n - u);
    assert Ramp(0, n)[u..] == Ramp(u, n - u);
    var starts := RampWindows(u, k, (n - u) / k, (n - u) % k);
    if n >= 4 {
      RampsAreALeak(WindowsAfterWarmup(Ramp(0, n)), starts, (n - u) / k);
    }
  }

  /** So is every steady climb, however slow it is. */
  lemma SteadyClimbIsFlagged(n: nat, a: real, b: real)
    requires n >= 2 && a > 0.0
    ensures Leak(Mapped(Ramp(0, n), a, b)) <==> n >= 4
  {
    VerdictIgnoresUnitAndOrigin(Ramp(0, n), a, b);
    RampIsFlagged(n);
  }
}
