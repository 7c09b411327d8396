/** The leak verdict: windows, medians and noise, what it is blind to, and what it always catches. */
module StabilityTrend {
  import opened Prelude
  import opened Sorting
  import opened Stability

  predicate AtMost(x: real, y: real) {
    x <= y
  }

  // ---- Windows ----

  /** The number of values in `k` windows of the given width, of which the first `extra` hold one more. */
  function Needed(k: nat, width: nat, extra: nat): nat {
    if k == 0 then 0 else Longer(width, extra) + Needed(k - 1, width, Fewer(extra))
  }

  function Longer(width: nat, extra: nat): nat {
    if extra > 0 then width + 1 else width
  }

  function Fewer(extra: nat): nat {
    if extra > 0 then extra - 1 else 0
  }

  function WindowsFrom(values: seq<real>, k: nat, width: nat, extra: nat): (ws: seq<seq<real>>)
    requires |values| == Needed(k, width, extra)
    ensures |ws| == k
    decreases k
  {
    if k == 0 then []
    else
      var length := Longer(width, extra);
      [values[..length]] + WindowsFrom(values[length..], k - 1, width, Fewer(extra))
  }

  lemma {:induction false} NeededIsQuotientAndRemainder(k: nat, width: nat, extra: nat)
    requires extra <= k
    ensures Needed(k, width, extra) == k * width + extra
  {
    if k > 0 {
      NeededIsQuotientAndRemainder(k - 1, width, Fewer(extra));
      assert k * width == (k - 1) * width + width;
    }
  }

  const WINDOWS: nat := 4

  function WindowCount(n: nat): nat {
    if n < WINDOWS then n else WINDOWS
  }

  lemma WindowsCoverEverything(n: nat)
    requires n > 0
    ensures Needed(WindowCount(n), n / WindowCount(n), n % WindowCount(n)) == n && n / WindowCount(n) >= 1
  {
    NeededIsQuotientAndRemainder(WindowCount(n), n / WindowCount(n), n % WindowCount(n));
  }

  function WindowsOf(values: seq<real>): seq<seq<real>>
    requires values != []
  {
    WindowsCoverEverything(|values|);
    var k := WindowCount(|values|);
    WindowsFrom(values, k, |values| / k, |values| % k)
  }

  function Flatten(ws: seq<seq<real>>): seq<real> {
    if ws == [] then [] else ws[0] + Flatten(ws[1..])
  }

  /** Consecutive windows that make up the values, each of the width or one longer. */
  lemma {:induction false} WindowsPartition(values: seq<real>, k: nat, width: nat, extra: nat)
    requires |values| == Needed(k, width, extra)
    ensures var ws := WindowsFrom(values, k, width, extra);
            && Flatten(ws) == values
            && forall i :: 0 <= i < |ws| ==> width <= |ws[i]| <= width + 1
    decreases k
  {
    if k > 0 {
      var length := Longer(width, extra);
      WindowsPartition(values[length..], k - 1, width, Fewer(extra));
      assert values == values[..length] + values[length..];
    }
  }

  /** At most four nonempty windows of nearly equal size, in order, and nothing lost. */
  lemma WindowsAreBalanced(values: seq<real>)
    requires values != []
    ensures var ws := WindowsOf(values);
            && Flatten(ws) == values && |ws| == WindowCount(|values|)
            && (forall i :: 0 <= i < |ws| ==> ws[i] != [])
            && (forall i, j :: 0 <= i < |ws| && 0 <= j < |ws| ==> |ws[i]| <= |ws[j]| + 1)
  {
    var k := WindowCount(|values|);
    WindowsCoverEverything(|values|);
    WindowsPartition(values, k, |values| / k, |values| % k);
  }

  lemma NextWindow(values: seq<real>, offset: nat, end: nat, k: nat, width: nat, left: nat)
    requires offset <= |values| && |values| - offset == Needed(k, width, left) && k > 0
    requires end == offset + Longer(width, left)
    ensures end <= |values| && |values| - end == Needed(k - 1, width, Fewer(left))
    ensures WindowsFrom(values[offset..], k, width, left)
      == [values[offset..end]] + WindowsFrom(values[end..], k - 1, width, Fewer(left))
  {
    assert values[offset..][..end - offset] == values[offset..end];
    assert values[offset..][end - offset..] == values[end..];
  }

  lemma Regrouped<T>(done: seq<T>, x: T, rest: seq<T>)
    ensures done + ([x] + rest) == (done + [x]) + rest
  {
  }

  /** The windows cut so far and those still to be cut make up all of them. */
  ghost predicate Progress(values: seq<real>, done: seq<seq<real>>, offset: nat, k: nat, width: nat, left: nat,
      all: seq<seq<real>>) {
    && offset <= |values| && |values| - offset == Needed(k, width, left)
    && done + WindowsFrom(values[offset..], k, width, left) == all
  }

  lemma CutOne(values: seq<real>, done: seq<seq<real>>, offset: nat, end: nat, k: nat, width: nat, left: nat,
      all: seq<seq<real>>)
    requires Progress(values, done, offset, k, width, left, all) && k > 0 && end == offset + Longer(width, left)
    ensures end <= |values| && Progress(values, done + [values[offset..end]], end, k - 1, width, Fewer(left), all)
  {
    NextWindow(values, offset, end, k, width, left);
    Regrouped(done, values[offset..end], WindowsFrom(values[end..], k - 1, width, Fewer(left)));
  }

  method Windows(values: seq<real>) returns (result: seq<seq<real>>)
    requires values != []
    ensures result == WindowsOf(values)
  {
    var count := WindowCount(|values|);
    WindowsCoverEverything(|values|);
    result := CutWindows(values, count, |values| / count, |values| % count);
  }

  method CutWindows(values: seq<real>, count: nat, width: nat, remainder: nat) returns (result: seq<seq<real>>)
    requires |values| == Needed(count, width, remainder)
    ensures result == WindowsFrom(values, count, width, remainder)
  {
    ghost var all := WindowsFrom(values, count, width, remainder);
    result := [];
    var offset: nat, index: nat := 0, 0;
    ghost var k, left := count, remainder;
    assert values[0..] == values;
    while index < count
      invariant k == count - index && left == if index < remainder then remainder - index else 0
      invariant Progress(values, result, offset, k, width, left, all)
    {
      var end := offset + if index < remainder then width + 1 else width;
      CutOne(values, result, offset, end, k, width, left, all);
      result := result + [values[offset..end]];
      offset, index := end, index + 1;
      k, left := k - 1, Fewer(left);
    }
  }

  // ---- Order statistics ----

  function Middle(s: seq<real>): real
    requires s != []
  {
    if |s| % 2 == 1 then s[|s| / 2] else (s[|s| / 2 - 1] + s[|s| / 2]) / 2.0
  }

  function Median(values: seq<real>): real
    requires values != []
  {
    SortLength(values, AtMost);
    Middle(Sort(values, AtMost))
  }

  function Interpolated(s: seq<real>, position: real): real
    requires s != [] && 0.0 <= position <= (|s| - 1) as real
  {
    var lower := position.Floor;
    var upper := if lower + 1 < |s| then lower + 1 else |s| - 1;
    var weight := position - lower as real;
    Times(s[lower], 1.0 - weight) + Times(s[upper], weight)
  }

  predicate IsFraction(f: real) {
    0.0 <= f <= 1.0
  }

  function Position(n: nat, f: real): real
    requires n > 0
  {
    (n - 1) as real * f
  }

  lemma PositionInRange(n: nat, f: real)
    requires n > 0 && IsFraction(f)
    ensures 0.0 <= Position(n, f) <= (n - 1) as real
  {
    if n > 1 {
      assert (n - 1) as real * (1.0 - f) >= 0.0;
      assert (n - 1) as real * (1.0 - f) == (n - 1) as real - (n - 1) as real * f;
    }
  }

  function PercentileOf(s: seq<real>, f: real): real
    requires s != [] && IsFraction(f)
  {
    PositionInRange(|s|, f);
    if |s| == 1 then s[0] else Interpolated(s, Position(|s|, f))
  }

  function Percentile(values: seq<real>, f: real): real
    requires values != [] && IsFraction(f)
  {
    SortLength(values, AtMost);
    PercentileOf(Sort(values, AtMost), f)
  }

  // ---- The verdict ----

  predicate AllNonempty(ws: seq<seq<real>>) {
    forall i :: 0 <= i < |ws| ==> ws[i] != []
  }

  function Medians(ws: seq<seq<real>>): seq<real>
    requires AllNonempty(ws)
  {
    seq(|ws|, i requires 0 <= i < |ws| => Median(ws[i]))
  }

  function Spread(w: seq<real>): real
    requires w != []
  {
    Percentile(w, 0.95) - Percentile(w, 0.05)
  }

  /** The widest spread of any window. */
  function Noise(ws: seq<seq<real>>): real
    requires AllNonempty(ws)
  {
    if ws == [] then 0.0
    else if |ws| == 1 then Spread(ws[0])
    else Max(Noise(ws[..|ws| - 1]), Spread(ws[|ws| - 1]))
  }

  predicate Rises(ms: seq<real>) {
    forall i, j :: 0 <= i < |ms| && 0 <= j < |ms| && j == i + 1 ==> ms[i] < ms[j]
  }

  function OngoingGrowth(ms: seq<real>): real {
    if |ms| >= 2 then ms[|ms| - 1] - ms[|ms| - 2] else 0.0
  }

  /** The medians rise from window to window, at the end by more than the noise. */
  predicate IsLeak(ms: seq<real>, noise: real) {
    |ms| >= 3 && Rises(ms) && OngoingGrowth(ms) > noise
  }

  function Warmup(n: nat): nat
    requires n >= 2
  {
    var tenth := if n / 5 > 1 then n / 5 else 1;
    if n - 2 < tenth then n - 2 else tenth
  }

  datatype SeriesTrend = SeriesTrend(
    samples: nat, first: real, last: real, minimum: real, median: real, maximum: real, slopePerHour: real,
    windowMedians: seq<real>, observedNoise: real, monotonicLeak: bool)

  /** The tightest bounds of the values. */
  ghost predicate AreExtremes(values: seq<real>, low: real, high: real) {
    low in values && high in values && forall v :: v in values ==> low <= v <= high
  }

  method Extremes(values: seq<real>) returns (low: real, high: real)
    requires values != []
    ensures AreExtremes(values, low, high)
  {
    low, high := values[0], values[0];
    for n := 1 to |values|
      invariant AreExtremes(values[..n], low, high)
    {
      assert values[..n + 1] == values[..n] + [values[n]];
      low, high := Min(low, values[n]), Max(high, values[n]);
    }
    assert values[..|values|] == values;
  }

  function WindowsAfterWarmup(values: seq<real>): (ws: seq<seq<real>>)
    requires |values| >= 2
    ensures AllNonempty(ws)
  {
    WindowsAreBalanced(values[Warmup(|values|)..]);
    WindowsOf(values[Warmup(|values|)..])
  }

  function Leak(values: seq<real>): bool
    requires |values| >= 2
  {
    IsLeak(Medians(WindowsAfterWarmup(values)), Noise(WindowsAfterWarmup(values)))
  }

  /** Minimum, median and maximum, in that order of size. */
  method Bounds(values: seq<real>) returns (low: real, middle: real, high: real)
    requires values != []
    ensures AreExtremes(values, low, high) && middle == Median(values) && low <= middle <= high
  {
    low, high := Extremes(values);
    assert forall i :: 0 <= i < |values| ==> values[i] in values;
    MedianIsBetween(values, low, high);
    middle := Median(values);
  }

  method Trend(times: seq<real>, values: seq<real>) returns (t: SeriesTrend)
    requires |times| == |values| && |values| >= 2
    ensures var k := Warmup(|values|);
            && t.samples == |values| - k && t.first == values[k] && t.last == values[|values| - 1]
            && t.median == Median(values[k..]) && t.slopePerHour == SlopePerHour(times[k..], values[k..])
    ensures AreExtremes(values[Warmup(|values|)..], t.minimum, t.maximum) && t.minimum <= t.median <= t.maximum
    ensures t.windowMedians == Medians(WindowsAfterWarmup(values))
    ensures t.observedNoise == Noise(WindowsAfterWarmup(values))
    ensures t.monotonicLeak == Leak(values)
  {
    var warmup := Warmup(|values|);
    var stable := values[warmup..];
    var windows := Windows(stable);
    WindowsAreBalanced(stable);
    var medians, noise := Medians(windows), Noise(windows);
    var minimum, middle, maximum := Bounds(stable);
    t := SeriesTrend(|stable|, stable[0], stable[|stable| - 1], minimum, middle, maximum,
                     SlopePerHour(times[warmup..], stable), medians, noise, IsLeak(medians, noise));
  }

  // ---- A series that never rises is never flagged ----

  predicate Nonincreasing(xs: seq<real>) {
    forall i, j :: 0 <= i < j < |xs| ==> xs[i] >= xs[j]
  }

  /** A median lies between any bounds of the values. */
  lemma MedianIsBetween(w: seq<real>, low: real, high: real)
    requires w != [] && forall i :: 0 <= i < |w| ==> low <= w[i] <= high
    ensures low <= Median(w) <= high
  {
    SortLength(w, AtMost);
    SortMembers(w, AtMost);
    var s := Sort(w, AtMost);
    assert forall x :: x in w ==> low <= x <= high;
    assert s[|s| / 2] in s;
    assert |s| % 2 == 0 ==> s[|s| / 2 - 1] in s;
  }

  lemma FirstWindows(values: seq<real>, k: nat, width: nat, extra: nat)
    requires |values| == Needed(k, width, extra) && k >= 2
    ensures var n, m := Longer(width, extra), Longer(width, Fewer(extra));
            && n + m <= |values| && WindowsFrom(values, k, width, extra)[0] == values[..n]
            && WindowsFrom(values, k, width, extra)[1] == values[n..n + m]
  {
    var n, m := Longer(width, extra), Longer(width, Fewer(extra));
    assert Needed(k - 1, width, Fewer(extra)) == m + Needed(k - 2, width, Fewer(Fewer(extra)));
    assert values[n..][..m] == values[n..n + m];
  }

  lemma LaterMedianIsNoHigher(values: seq<real>, n: nat, m: nat)
    requires Nonincreasing(values) && 0 < n < m <= |values|
    ensures Median(values[..n]) >= Median(values[n..m])
  {
    MedianIsBetween(values[..n], values[n - 1], values[0]);
    MedianIsBetween(values[n..m], values[m - 1], values[n - 1]);
  }

  lemma FallingMedians(values: seq<real>, k: nat, width: nat, extra: nat)
    requires |values| == Needed(k, width, extra) && k >= 2 && width >= 1 && Nonincreasing(values)
    ensures var ws := WindowsFrom(values, k, width, extra);
            ws[0] != [] && ws[1] != [] && Median(ws[0]) >= Median(ws[1])
  {
    var n, m := Longer(width, extra), Longer(width, Fewer(extra));
    FirstWindows(values, k, width, extra);
    LaterMedianIsNoHigher(values, n, n + m);
  }

  lemma SecondWindowIsNoHigher(values: seq<real>)
    requires |values| >= 2 && Nonincreasing(values)
    ensures AllNonempty(WindowsOf(values)) && |Medians(WindowsOf(values))| >= 2
    ensures Medians(WindowsOf(values))[0] >= Medians(WindowsOf(values))[1]
  {
    var k := WindowCount(|values|);
    WindowsAreBalanced(values);
    WindowsCoverEverything(|values|);
    FallingMedians(values, k, |values| / k, |values| % k);
  }

  lemma NonincreasingIsNeverFlagged(values: seq<real>)
    requires |values| >= 2 && Nonincreasing(values)
    ensures !Leak(values)
  {
    SecondWindowIsNoHigher(values[Warmup(|values|)..]);
  }
}
