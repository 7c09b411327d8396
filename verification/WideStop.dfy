/** The wide-stop replay: fixed stop below, fixed target above, the stop winning an ambiguous bar. */
module WideStop {
  import opened Prelude
  import opened Bars
  import opened Schedule
  import opened Revised
  import Reports

  datatype Result = AmbiguousSameBar | Stop | Target | EndOfTest

  datatype Exit = Exit(result: Result, closedAt: int, outcomeR: real, mfe: real, mae: real)

  function Path(t: Setup, bars: seq<Bar>, i: nat, end: int, mfe: real, mae: real): Exit
    requires i <= |bars|
    decreases |bars| - i
  {
    if i == |bars| || bars[i].time >= end then
      Exit(EndOfTest, end, RAt(t, LastClose(bars, t.entry)), mfe, mae)
    else
      var b := bars[i];
      var mfe', mae' := Max(mfe, RAt(t, b.high)), Min(mae, RAt(t, b.low));
      var stopHit, targetHit := b.low <= InitialStop(t), b.high >= t.target;
      if stopHit then
        Exit(if targetHit then AmbiguousSameBar else Stop, b.time + ONE_MINUTE, -1.0, mfe', mae')
      else if targetHit then
        Exit(Target, b.time + ONE_MINUTE, RAt(t, t.target), mfe', mae')
      else Path(t, bars, i + 1, end, mfe', mae')
  }

  method ReplayTrade(t: Setup, bars: seq<Bar>, openedAt: int, end: int) returns (exit: Exit)
    ensures exit == Path(t, bars, StartIndex(bars, openedAt), end, 0.0, 0.0)
  {
    var mfe, mae := 0.0, 0.0;
    var i := StartIndex(bars, openedAt);
    ghost var first := i;
    while i < |bars| && bars[i].time < end
      invariant first <= i <= |bars|
      invariant Path(t, bars, i, end, mfe, mae) == Path(t, bars, first, end, 0.0, 0.0)
    {
      var bar := bars[i];
      mfe := Max(mfe, RAt(t, bar.high));
      mae := Min(mae, RAt(t, bar.low));
      var stopHit, targetHit := bar.low <= InitialStop(t), bar.high >= t.target;
      if stopHit || targetHit {
        var closedAt := bar.time + ONE_MINUTE;
        if stopHit && targetHit {
          return Exit(AmbiguousSameBar, closedAt, -1.0, mfe, mae);
        } else if stopHit {
          return Exit(Stop, closedAt, -1.0, mfe, mae);
        } else {
          return Exit(Target, closedAt, RAt(t, t.target), mfe, mae);
        }
      }
      i := i + 1;
    }
    return Exit(EndOfTest, end, RAt(t, LastClose(bars, t.entry)), mfe, mae);
  }

  // ---- Declarative reading: the first bar that touches either level decides ----

  ghost predicate Touches(t: Setup, b: Bar) {
    b.low <= InitialStop(t) || b.high >= t.target
  }

  ghost predicate FirstTouch(t: Setup, bars: seq<Bar>, i: nat, end: int, k: int) {
    && i <= k < |bars| && Touches(t, bars[k])
    && (forall j :: i <= j <= k ==> bars[j].time < end)
    && (forall j :: i <= j < k ==> !Touches(t, bars[j]))
  }

  /** The replay is exactly first touch with the stop winning, or the final close when nothing is touched. */
  lemma {:induction false} PathIsFirstTouch(t: Setup, bars: seq<Bar>, i: nat, end: int, mfe: real, mae: real)
    requires i <= |bars|
    ensures var exit := Path(t, bars, i, end, mfe, mae);
            && (exit.result == EndOfTest <==> !exists k :: FirstTouch(t, bars, i, end, k))
            && (exit.result == EndOfTest ==> exit.closedAt == end && exit.outcomeR == RAt(t, LastClose(bars, t.entry)))
            && (forall k :: FirstTouch(t, bars, i, end, k) ==>
                  && exit.closedAt == bars[k].time + ONE_MINUTE
                  && exit.outcomeR == if bars[k].low <= InitialStop(t) then -1.0 else RAt(t, t.target))
    decreases |bars| - i
  {
    if i == |bars| || bars[i].time >= end {
    } else if Touches(t, bars[i]) {
      assert FirstTouch(t, bars, i, end, i);
    } else {
      PathIsFirstTouch(t, bars, i + 1, end, Max(mfe, RAt(t, bars[i].high)), Min(mae, RAt(t, bars[i].low)));
      forall k | FirstTouch(t, bars, i, end, k) ensures FirstTouch(t, bars, i + 1, end, k) {}
      var next := i + 1;
      forall k | FirstTouch(t, bars, next, end, k) ensures FirstTouch(t, bars, i, end, k) {}
    }
  }

  // ---- A whole report ----

  datatype Executed = Executed(openedAt: int, setup: Setup, obstacleR: real, exit: Exit)

  function Attempt(stopMultiplier: Multiplier, targetMultiplier: real, bars: seq<Bar>, end: int,
      s: Signal): Option<Executed> {
    match Widen(s, stopMultiplier, targetMultiplier)
    case None => None
    case Some(t) => Some(
      Executed(s.openedAt, t, s.firstObstacleR / stopMultiplier,
               Path(t, bars, StartIndex(bars, s.openedAt), end, 0.0, 0.0)))
  }

  function Attempter(stopMultiplier: Multiplier, targetMultiplier: real, bars: seq<Bar>,
      end: int): Signal -> Option<Executed> {
    (s: Signal) => Attempt(stopMultiplier, targetMultiplier, bars, end, s)
  }

  function Closed(e: Executed): int { e.exit.closedAt }
  function OutcomeR(e: Executed): real { e.exit.outcomeR }

  /** What a report counts, in the order in which the script lists it. */
  function Flags(): seq<Executed -> bool> {
    [(e: Executed) => e.exit.result.Target?,
     (e: Executed) => e.exit.result.Stop?,
     (e: Executed) => e.exit.result.AmbiguousSameBar?,
     (e: Executed) => e.obstacleR < 1.0,
     (e: Executed) => RAt(e.setup, e.setup.target) > e.obstacleR,
     (e: Executed) => RAt(e.setup, e.setup.target) < 1.0]
  }

  /** None stands for the ValueErrors on multipliers that do not widen the stop or keep the target. */
  method Replay(stopMultiplier: Multiplier, targetMultiplier: real, bars: seq<Bar>, start: int, end: int,
      signals: seq<Signal>)
      returns (report: Option<(Book<Executed>, Reports.Summary)>)
    ensures report.Some? <==> stopMultiplier > 1.0 && targetMultiplier > 0.0
    ensures report.Some? ==>
      var (book, summary) := report.value;
      && book == Run(start, signals, Opening, Attempter(stopMultiplier, targetMultiplier, bars, end), Closed)
      && Reports.Summarizes(summary, book.executed, Flags(), OutcomeR, Closed)
  {
    if stopMultiplier <= 1.0 || targetMultiplier <= 0.0 {
      return None;
    }
    ghost var attempt := Attempter(stopMultiplier, targetMultiplier, bars, end);
    var b: Book<Executed> := Book(start, [], 0, 0);
    for n := 0 to |signals|
      invariant b == Run(start, signals[..n], Opening, attempt, Closed)
    {
      var s := signals[n];
      assert signals[..n + 1][..n] == signals[..n];
      if s.openedAt < b.unavailableUntil {
        b := b.(overlapping := b.overlapping + 1);
        continue;
      }
      var t := Widen(s, stopMultiplier, targetMultiplier);
      if t.None? {
        b := b.(invalid := b.invalid + 1);
        continue;
      }
      var exit := ReplayTrade(t.value, bars, s.openedAt, end);
      var item := Executed(s.openedAt, t.value, s.firstObstacleR / stopMultiplier, exit);
      b := b.(unavailableUntil := exit.closedAt, executed := b.executed + [item]);
    }
    assert signals[..|signals|] == signals;
    var summary := Reports.Summarize(b.executed, Flags(), OutcomeR, Closed);
    return Some((b, summary));
  }
}
