/** What medians, percentiles, noise and warm-up are, over any ascending arrangement of the values. */
module StabilityFigures {
  import opened Prelude
  import opened Sorting
  import opened Stability
  import opened StabilityTrend

  // ---- One ascending arrangement ----

  /** The values in ascending order. */
  ghost predicate Arranges(s: seq<real>, values: seq<real>) {
    multiset(s) == multiset(values) && forall i, j :: 0 <= i < j < |s| ==> s[i] <= s[j]
  }

  lemma SameSize(s: seq<real>, t: seq<real>)
    requires multiset(s) == multiset(t)
    ensures |s| == |t|
  {
    assert |multiset(s)| == |s| && |multiset(t)| == |t|;
  }

  lemma LastIsTheHighest(s: seq<real>, values: seq<real>, x: real)
    requires Arranges(s, values) && s != [] && x in multiset(values)
    ensures x <= s[|s| - 1]
  {
    assert x in multiset(s);
    var i :| 0 <= i < |s| && s[i] == x;
    assert i < |s| - 1 ==> s[i] <= s[|s| - 1];
  }

  lemma FrontOf(s: seq<real>)
    requires s != []
    ensures multiset(s) == multiset(s[..|s| - 1]) + multiset{s[|s| - 1]}
  {
    Snoc(s);
  }

  lemma FrontsArrange(s: seq<real>, t: seq<real>)
    requires Arranges(s, t) && Arranges(t, s) && s != [] && |s| == |t|
    ensures s[|s| - 1] == t[|s| - 1] && Arranges(s[..|s| - 1], t[..|s| - 1]) && Arranges(t[..|s| - 1], s[..|s| - 1])
  {
    var n := |s| - 1;
    assert s[n] in multiset(s) && t[n] in multiset(t);
    LastIsTheHighest(s, t, t[n]);
    LastIsTheHighest(t, s, s[n]);
    FrontOf(s);
    FrontOf(t);
    assert multiset(s[..n]) == multiset(s) - multiset{s[n]} && multiset(t[..n]) == multiset(t) - multiset{t[n]};
  }

  lemma {:induction false} ArrangementIsUnique(s: seq<real>, t: seq<real>)
    requires Arranges(s, t) && Arranges(t, s)
    ensures s == t
  {
    SameSize(s, t);
    if s != [] {
      var n := |s| - 1;
      FrontsArrange(s, t);
      ArrangementIsUnique(s[..n], t[..n]);
      Snoc(s);
      Snoc(t);
    }
  }

  lemma SortArranges(values: seq<real>)
    ensures Arranges(Sort(values, AtMost), values)
  {
    SortIsPermutation(values, AtMost);
    SortSorts(values, AtMost);
    var s := Sort(values, AtMost);
    forall i, j | 0 <= i < j < |s| ensures s[i] <= s[j] {
      assert AtMost(s[i], s[j]);
    }
  }

  lemma AnyArrangementIsTheSort(s: seq<real>, values: seq<real>)
    requires Arranges(s, values)
    ensures s == Sort(values, AtMost)
  {
    SortArranges(values);
    ArrangementIsUnique(s, Sort(values, AtMost));
  }

  // ---- Order statistics ----

  /** The median is the middle of the ascending values, or halfway between the two in the middle. */
  lemma MedianIsTheMiddle(values: seq<real>, s: seq<real>)
    requires values != [] && Arranges(s, values)
    ensures |s| == |values|
    ensures |s| % 2 == 1 ==> Median(values) == s[(|s| - 1) / 2]
    ensures |s| % 2 == 0 ==> 2.0 * Median(values) == s[|s| / 2 - 1] + s[|s| / 2]
  {
    SameSize(s, values);
    AnyArrangementIsTheSort(s, values);
  }

  lemma BlendIsAStep(a: real, b: real, w: real)
    ensures Times(a, 1.0 - w) + Times(b, w) == a + w * (b - a)
  {
    assert a * (1.0 - w) == a - a * w;
    assert w * (b - a) == b * w - a * w;
  }

  lemma PointOnTheLine(s: seq<real>, position: real, k: nat)
    requires k < |s| && 0.0 <= position <= (|s| - 1) as real && k as real <= position < (k + 1) as real
    ensures Interpolated(s, position)
         == if k + 1 < |s| then s[k] + (position - k as real) * (s[k + 1] - s[k]) else s[k]
  {
    assert position.Floor == k;
    var next := if k + 1 < |s| then k + 1 else |s| - 1;
    BlendIsAStep(s[k], s[next], position - k as real);
  }

  /** A percentile lies that far along the ascending values, on a straight line between neighbours. */
  lemma PercentileIsOnTheLine(values: seq<real>, s: seq<real>, f: real, position: real, k: nat)
    requires values != [] && Arranges(s, values) && 0.0 <= f <= 1.0
    requires position == (|values| - 1) as real * f && k < |values| && k as real <= position < (k + 1) as real
    ensures |s| == |values|
    ensures Percentile(values, f)
         == if k + 1 < |s| then s[k] + (position - k as real) * (s[k + 1] - s[k]) else s[k]
  {
    SameSize(s, values);
    AnyArrangementIsTheSort(s, values);
    PositionInRange(|s|, f);
    PointOnTheLine(s, position, k);
    PercentileAt(values, s, f, position);
  }

  lemma PercentileAt(values: seq<real>, s: seq<real>, f: real, position: real)
    requires values != [] && s == Sort(values, AtMost) && |s| == |values| && IsFraction(f)
    requires position == Position(|s|, f) && 0.0 <= position <= (|s| - 1) as real
    ensures Percentile(values, f) == if |s| == 1 then s[0] else Interpolated(s, position)
  {
  }

  // ---- Noise ----

  /** The distance between the 5% and the 95% line of a window. */
  function Width(w: seq<real>): real
    requires w != []
  {
    Percentile(w, 0.95) - Percentile(w, 0.05)
  }

  lemma WidthIsTheSpread(w: seq<real>)
    requires w != []
    ensures Width(w) == Spread(w)
  {
  }

  function Widths(ws: seq<seq<real>>): seq<real>
    requires AllNonempty(ws)
  {
    seq(|ws|, i requires 0 <= i < |ws| => Width(ws[i]))
  }

  function Highest(xs: seq<real>): real
    requires xs != []
  {
    if |xs| == 1 then xs[0] else Max(Highest(xs[..|xs| - 1]), xs[|xs| - 1])
  }

  lemma {:induction false} HighestIsReached(xs: seq<real>) returns (at: nat)
    requires xs != []
    ensures at < |xs| && xs[at] == Highest(xs) && forall i :: 0 <= i < |xs| ==> xs[i] <= Highest(xs)
  {
    var n := |xs| - 1;
    at := 0;
    if n > 0 {
      at := HighestIsReached(xs[..n]);
      at := if xs[n] >= Highest(xs[..n]) then n else at;
    }
  }

  lemma {:induction false} NoiseIsTheHighest(ws: seq<seq<real>>)
    requires ws != [] && AllNonempty(ws)
    ensures Noise(ws) == Highest(Widths(ws))
  {
    var n := |ws| - 1;
    WidthIsTheSpread(ws[n]);
    if n > 0 {
      NoiseIsTheHighest(ws[..n]);
      assert Widths(ws)[..n] == Widths(ws[..n]);
    }
  }

  /** The noise is the width of the widest window. */
  lemma NoiseIsTheWidestWindow(ws: seq<seq<real>>) returns (widest: nat)
    requires ws != [] && AllNonempty(ws)
    ensures widest < |ws| && Width(ws[widest]) == Noise(ws)
    ensures forall i :: 0 <= i < |ws| ==> Width(ws[i]) <= Noise(ws)
  {
    NoiseIsTheHighest(ws);
    var widths := Widths(ws);
    widest := HighestIsReached(widths);
    assert forall i :: 0 <= i < |ws| ==> Width(ws[i]) == widths[i];
  }

  // ---- Windows and warm-up ----

  function Size(i: nat, width: nat, extra: nat): nat {
    if i < extra then width + 1 else width
  }

  /** Longer windows come first. */
  lemma {:induction false} LongerWindowsComeFirst(values: seq<real>, k: nat, width: nat, extra: nat)
    requires |values| == Needed(k, width, extra)
    ensures var ws := WindowsFrom(values, k, width, extra);
            forall i :: 0 <= i < k ==> |ws[i]| == Size(i, width, extra)
    decreases k
  {
    if k > 0 {
      var length := Longer(width, extra);
      LongerWindowsComeFirst(values[length..], k - 1, width, Fewer(extra));
      var ws, rest := WindowsFrom(values, k, width, extra), WindowsFrom(values[length..], k - 1, width, Fewer(extra));
      forall i | 0 <= i < k ensures |ws[i]| == Size(i, width, extra) {
        if i > 0 {
          assert ws[i] == rest[i - 1] && |rest[i - 1]| == Size(i - 1, width, Fewer(extra));
        }
      }
    }
  }

  lemma DivisionIsUnique(n: nat, k: nat, width: nat, extra: nat)
    requires 1 <= k <= 4 && n == k * width + extra && extra < k
    ensures n / k == width && n % k == extra
  {
    assert k == 1 || k == 2 || k == 3 || k == 4;
  }

  /** Four windows, or one for each value of a shorter series; what does not divide evenly goes to the first ones. */
  lemma WindowSizesAre(values: seq<real>, k: nat, width: nat, extra: nat)
    requires values != [] && k == (if |values| < 4 then |values| else 4)
    requires |values| == k * width + extra && extra < k
    ensures |WindowsOf(values)| == k && forall i :: 0 <= i < k ==> |WindowsOf(values)[i]| == Size(i, width, extra)
  {
    DivisionIsUnique(|values|, k, width, extra);
    WindowsCoverEverything(|values|);
    SizesAre(values, k, width, extra, WindowsOf(values));
  }

  lemma SizesAre(values: seq<real>, k: nat, width: nat, extra: nat, ws: seq<seq<real>>)
    requires |values| == Needed(k, width, extra) && ws == WindowsFrom(values, k, width, extra)
    ensures |ws| == k && forall i :: 0 <= i < k ==> |ws[i]| == Size(i, width, extra)
  {
    LongerWindowsComeFirst(values, k, width, extra);
  }

  /** A fifth of the series is warm-up, but at least one value, and at least two values stay. */
  lemma WarmupIs(n: nat)
    requires n >= 2
    ensures n >= 5 ==> 5 * Warmup(n) <= n < 5 * (Warmup(n) + 1)
    ensures 3 <= n < 5 ==> Warmup(n) == 1
    ensures n == 2 ==> Warmup(n) == 0
    ensures Warmup(n) + 2 <= n
  {
  }

  // ---- The verdict ----

  predicate RisesThroughout(ms: seq<real>) {
    forall i :: 0 < i < |ms| ==> ms[i - 1] < ms[i]
  }

  /** The last step of the medians is more than every width. */
  predicate OutgrowsAll(ms: seq<real>, widths: seq<real>)
    requires |ms| >= 2
  {
    forall i :: 0 <= i < |widths| ==> ms[|ms| - 1] - ms[|ms| - 2] > widths[i]
  }

  lemma LeakOfFigures(ms: seq<real>, widths: seq<real>)
    requires widths != []
    ensures IsLeak(ms, Highest(widths)) <==> |ms| >= 3 && RisesThroughout(ms) && OutgrowsAll(ms, widths)
  {
    var at := HighestIsReached(widths);
    assert Rises(ms) <==> RisesThroughout(ms);
  }

  /** A leak is at least three windows whose medians rise throughout, the last step by more than every width. */
  lemma LeakIs(values: seq<real>)
    requires |values| >= 2
    ensures var ws := WindowsAfterWarmup(values);
            Leak(values) <==> |ws| >= 3 && RisesThroughout(Medians(ws)) && OutgrowsAll(Medians(ws), Widths(ws))
  {
    WindowsAreThere(values[Warmup(|values|)..]);
    var ws := WindowsAfterWarmup(values);
    NoiseIsTheHighest(ws);
    LeakOfFigures(Medians(ws), Widths(ws));
  }

  lemma WindowsAreThere(values: seq<real>)
    requires values != []
    ensures WindowsOf(values) != []
  {
    WindowsAreBalanced(values);
  }
}
