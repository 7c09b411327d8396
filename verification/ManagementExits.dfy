/** What the bars of a managed trade look like when it ends: levels, peak and evidence, read off the bars themselves. */
module ManagementExits {
  import opened Prelude
  import opened Bars
  import opened Revised
  import opened Management

  // ---- The peak ----

  /** The highest R before bar `n`, never below zero. */
  function PeakR(t: Setup, bars: seq<Bar>, first: nat, n: nat): real
    requires first <= n <= |bars|
  {
    if n == first then 0.0 else Max(PeakR(t, bars, first, n - 1), RAt(t, bars[n - 1].high))
  }

  function TroughR(t: Setup, bars: seq<Bar>, first: nat, n: nat): real
    requires first <= n <= |bars|
  {
    if n == first then 0.0 else Min(TroughR(t, bars, first, n - 1), RAt(t, bars[n - 1].low))
  }

  /** The bar that set the peak, or the first one when none has. */
  function PeakBar(t: Setup, bars: seq<Bar>, first: nat, n: nat): (k: nat)
    requires first <= n <= |bars|
    ensures first <= k && (n > first ==> k < n)
  {
    if n == first then first
    else if RAt(t, bars[n - 1].high) > PeakR(t, bars, first, n - 1) then n - 1
    else PeakBar(t, bars, first, n - 1)
  }

  /** No bar rose above the peak; when it is positive, `PeakBar` is the first bar that reached it. */
  lemma {:induction false} PeakIsTheFirstHighest(t: Setup, bars: seq<Bar>, first: nat, n: nat)
    requires first <= n <= |bars|
    ensures var peak, k := PeakR(t, bars, first, n), PeakBar(t, bars, first, n);
            && peak >= 0.0
            && (forall j :: first <= j < n ==> RAt(t, bars[j].high) <= peak)
            && (peak > 0.0 ==> k < n && RAt(t, bars[k].high) == peak)
            && (forall j :: first <= j < k ==> RAt(t, bars[j].high) < peak)
            && (peak == 0.0 ==> k == first)
  {
    if n > first {
      PeakIsTheFirstHighest(t, bars, first, n - 1);
    }
  }

  lemma {:induction false} TroughIsTheLowest(t: Setup, bars: seq<Bar>, first: nat, n: nat)
    requires first <= n <= |bars|
    ensures var trough := TroughR(t, bars, first, n);
            && trough <= 0.0
            && (forall j :: first <= j < n ==> trough <= RAt(t, bars[j].low))
            && (trough < 0.0 ==> exists j :: first <= j < n && RAt(t, bars[j].low) == trough)
  {
    if n > first {
      TroughIsTheLowest(t, bars, first, n - 1);
    }
  }

  // ---- Evidence ----

  predicate IsBearish(b: Bar) {
    b.close < b.open
  }

  /** A bearish bar closes below the lows of the three bars before it. */
  predicate BreaksSupport(bars: seq<Bar>, first: nat, i: nat)
    requires first <= i < |bars|
  {
    && i >= first + 3 && IsBearish(bars[i])
    && bars[i].close < bars[i - 1].low && bars[i].close < bars[i - 2].low && bars[i].close < bars[i - 3].low
  }

  /** Two of the last three bars are bearish, they fell by 0.8 ATR, and the last closed low, in the lower 35%. */
  predicate FallsHard(bars: seq<Bar>, first: nat, i: nat, atr: real)
    requires first <= i < |bars|
  {
    && i >= first + 2 && atr > 0.0
    && ((IsBearish(bars[i]) && IsBearish(bars[i - 1])) || (IsBearish(bars[i]) && IsBearish(bars[i - 2]))
        || (IsBearish(bars[i - 1]) && IsBearish(bars[i - 2])))
    && bars[i].close <= bars[i - 2].open - 0.8 * atr
    && bars[i].high > bars[i].low
    && bars[i].close <= bars[i].low + 0.35 * (bars[i].high - bars[i].low)
  }

  /** Clearly below the entry: by more than 0.20 and by more than a tenth of the ATR. */
  predicate IsClearlyBelow(price: real, entry: real, atr: real) {
    price < entry - 0.20 && price < entry - 0.10 * atr
  }

  /** The last two bars closed clearly below the entry. */
  predicate StaysBelow(bars: seq<Bar>, first: nat, i: nat, entry: real, atr: real)
    requires first <= i < |bars|
  {
    i >= first + 1 && IsClearlyBelow(bars[i - 1].close, entry, atr) && IsClearlyBelow(bars[i].close, entry, atr)
  }

  /** The last two blocks of five bars both closed below the entry. */
  predicate FiveMinutesStayBelow(bars: seq<Bar>, first: nat, i: nat, entry: real)
    requires first <= i < |bars|
  {
    i >= first + 9 && bars[i - 5].close < entry && bars[i].close < entry
  }

  predicate ShowsAllThree(bars: seq<Bar>, first: nat, i: nat, entry: real, atr: real)
    requires first <= i < |bars|
  {
    BreaksSupport(bars, first, i) && FallsHard(bars, first, i, atr) && StaysBelow(bars, first, i, entry, atr)
  }

  lemma ProductsCompare(q: real, limit: real, range: real)
    requires range > 0.0
    ensures q * range <= limit * range <==> q <= limit
  {
    if q <= limit {
      assert (limit - q) * range >= 0.0;
    } else {
      assert (q - limit) * range > 0.0;
    }
  }

  lemma LowerPart(b: Bar)
    ensures (if b.high > b.low then (b.close - b.low) / (b.high - b.low) else 1.0) <= 0.35 <==>
              b.high > b.low && b.close <= b.low + 0.35 * (b.high - b.low)
  {
    if b.high > b.low {
      var q := (b.close - b.low) / (b.high - b.low);
      assert q * (b.high - b.low) == b.close - b.low;
      ProductsCompare(q, 0.35, b.high - b.low);
    }
  }

  lemma MomentumIs(bars: seq<Bar>, first: nat, i: nat, entry: real, atr: real)
    requires first <= i < |bars|
    ensures ReversalEvidence(bars[first..i + 1], entry, atr).momentum <==> FallsHard(bars, first, i, atr)
  {
    var path := bars[first..i + 1];
    var n := |path| - 1;
    assert path[n] == bars[i];
    if n >= 2 {
      assert path[n - 1] == bars[i - 1] && path[n - 2] == bars[i - 2];
      LowerPart(bars[i]);
    }
  }

  /** What the replay takes for evidence is what the bars show. */
  lemma EvidenceIsInTheBars(bars: seq<Bar>, first: nat, i: nat, entry: real, atr: real)
    requires first <= i < |bars|
    ensures ReversalEvidence(bars[first..i + 1], entry, atr)
         == Evidence(BreaksSupport(bars, first, i), FallsHard(bars, first, i, atr),
                     StaysBelow(bars, first, i, entry, atr), FiveMinutesStayBelow(bars, first, i, entry))
  {
    MomentumIs(bars, first, i, entry, atr);
    var path := bars[first..i + 1];
    assert forall k :: 0 <= k < |path| ==> path[k] == bars[first + k];
  }

  // ---- Reasons ----

  /** The peak was within a fifth of the target, reached the obstacle, or one risk. */
  predicate WasNearTarget(tr: Trade, peak: real) { peak >= 0.80 * RAt(tr.setup, tr.setup.target) }
  predicate TouchedObstacle(tr: Trade, peak: real) { peak >= tr.obstacleR }
  predicate ReachedOneR(peak: real) { peak >= 1.0 }
  predicate FadedEarly(peak: real) { 0.50 <= peak < 1.0 }

  /** What each reason stands for, under which policies, and when a stronger reason goes before it. */
  predicate Warrants(reason: Reason, tr: Trade, peak: real, e: Evidence) {
    var three := e.microBreak && e.momentum && e.acceptance;
    match reason
    case NearTargetMomentumReversal =>
      tr.policy == ObstacleAware && WasNearTarget(tr, peak) && e.microBreak && e.momentum
    case NearTargetPersistentReversal =>
      && three && WasNearTarget(tr, peak)
      && (tr.policy in {Conservative, M5Persistent} || (tr.policy == TypedState && !FadedEarly(peak)))
    case ObstaclePersistentReversal =>
      three && tr.policy in {Conservative, ObstacleAware} && TouchedObstacle(tr, peak) && !WasNearTarget(tr, peak)
    case OneRPersistentInvalidation =>
      && three && tr.policy in {Conservative, ObstacleAware} && ReachedOneR(peak)
      && !TouchedObstacle(tr, peak) && !WasNearTarget(tr, peak)
    case M5PersistentInvalidation =>
      && three && e.m5Persistence && tr.policy == M5Persistent
      && (TouchedObstacle(tr, peak) || ReachedOneR(peak)) && !WasNearTarget(tr, peak)
    case FastFadeInvalidation => three && tr.policy == TypedState && FadedEarly(peak)
    case RunnerM5PersistentInvalidation =>
      && three && e.m5Persistence && tr.policy == TypedState
      && (TouchedObstacle(tr, peak) || ReachedOneR(peak)) && !WasNearTarget(tr, peak) && !FadedEarly(peak)
  }

  lemma ReasonsAreWarranted(reason: Reason, tr: Trade, peak: real, age: int, e: Evidence)
    ensures ManagementReason(tr.policy, peak, peak >= tr.obstacleR, peak >= 0.80 * TargetR(tr.setup), age, e)
              == Some(reason)
            <==> age >= 2 && Warrants(reason, tr, peak, e)
  {
  }

  /** At bar `i`, two bars or more after the peak, the bars show what the reason stands for. */
  predicate Shows(tr: Trade, bars: seq<Bar>, first: nat, i: nat, reason: Reason)
    requires first <= i < |bars|
  {
    var entry := tr.setup.entry;
    && i >= PeakBar(tr.setup, bars, first, i + 1) + 2
    && Warrants(reason, tr, PeakR(tr.setup, bars, first, i + 1),
                Evidence(BreaksSupport(bars, first, i), FallsHard(bars, first, i, tr.atr),
                         StaysBelow(bars, first, i, entry, tr.atr), FiveMinutesStayBelow(bars, first, i, entry)))
  }

  // ---- The trade ----

  function WalkTo(t: Setup, bars: seq<Bar>, first: nat, n: nat): Walk
    requires first <= n <= |bars|
  {
    var peak := PeakR(t, bars, first, n);
    Walk(peak, PeakBar(t, bars, first, n) - first, peak, TroughR(t, bars, first, n))
  }

  lemma ObserveWalks(t: Setup, bars: seq<Bar>, first: nat, i: nat)
    requires first <= i < |bars|
    ensures Observe(t, WalkTo(t, bars, first, i), i - first, bars[i]) == WalkTo(t, bars, first, i + 1)
  {
  }

  lemma ReasonIsShown(tr: Trade, bars: seq<Bar>, first: nat, i: nat, reason: Reason)
    requires first <= i < |bars|
    ensures ReasonAt(tr, bars[first..i + 1], WalkTo(tr.setup, bars, first, i + 1)) == Some(reason) <==>
              Shows(tr, bars, first, i, reason)
  {
    EvidenceIsInTheBars(bars, first, i, tr.setup.entry, tr.atr);
    ReasonsAreWarranted(reason, tr, PeakR(tr.setup, bars, first, i + 1),
                        i - PeakBar(tr.setup, bars, first, i + 1),
                        ReversalEvidence(bars[first..i + 1], tr.setup.entry, tr.atr));
  }

  predicate HitsStop(t: Setup, b: Bar) { b.low <= t.entry - t.risk }
  predicate HitsTarget(t: Setup, b: Bar) { b.high >= t.target }

  ghost predicate IsQuiet(tr: Trade, bars: seq<Bar>, first: nat, i: nat)
    requires first <= i < |bars|
  {
    && !HitsStop(tr.setup, bars[i]) && !HitsTarget(tr.setup, bars[i])
    && (forall reason :: !Shows(tr, bars, first, i, reason))
  }

  /** `r` is worth that of the price, kept between the full loss and the target. */
  predicate IsWorth(t: Setup, r: real, price: real) {
    var exact, most := RAt(t, price), RAt(t, t.target);
    && (exact < -1.0 ==> r == -1.0) && (exact > most ==> r == most)
    && (-1.0 <= exact <= most ==> r == exact)
  }

  /** How a trade ends at its first bar that is not quiet: the stop first, then the target, then the reason shown. */
  ghost predicate EndsAtBar(tr: Trade, bars: seq<Bar>, first: nat, n: nat, exit: Exit)
    requires first <= n < |bars|
  {
    var t, b := tr.setup, bars[n];
    && exit.closedAt == b.time + 60
    && (HitsStop(t, b) ==> exit.outcomeR == -1.0 && exit.result == if HitsTarget(t, b) then AmbiguousSameBar else Stop)
    && (HitsTarget(t, b) && !HitsStop(t, b) ==> exit.result == Target && exit.outcomeR == RAt(t, t.target))
    && (!HitsTarget(t, b) && !HitsStop(t, b) ==>
          && exit.result.ManagedExit? && Shows(tr, bars, first, n, exit.result.reason)
          && IsWorth(t, exit.outcomeR, b.close))
    && exit.peakR == exit.mfe == PeakR(t, bars, first, n + 1) && exit.mae == TroughR(t, bars, first, n + 1)
  }

  /** Without such a bar it ends with the test, at the last close of all. */
  ghost predicate EndsWithTheTest(tr: Trade, bars: seq<Bar>, first: nat, n: nat, end: int, exit: Exit)
    requires first <= n <= |bars|
  {
    var t := tr.setup;
    && exit.result == EndOfTest && exit.closedAt == end
    && IsWorth(t, exit.outcomeR, if bars == [] then t.entry else bars[|bars| - 1].close)
    && exit.peakR == exit.mfe == PeakR(t, bars, first, n) && exit.mae == TroughR(t, bars, first, n)
  }

  ghost predicate IsQuietUntil(tr: Trade, bars: seq<Bar>, first: nat, n: nat, end: int)
    requires first <= n <= |bars|
  {
    forall j :: first <= j < n ==> bars[j].time < end && IsQuiet(tr, bars, first, j)
  }

  lemma ClampIsWorth(t: Setup, price: real)
    ensures IsWorth(t, Clamp(t, RAt(t, price)), price)
  {
    StopIsMinusOneR(t);
  }

  /** A trade ends at the first bar that touches a level or shows a reason to leave, and otherwise with the test. */
  lemma {:induction false} TradeEndsAtTheFirstReason(tr: Trade, bars: seq<Bar>, first: nat, i: nat, end: int)
    returns (n: nat)
    requires first <= i <= |bars| && IsQuietUntil(tr, bars, first, i, end)
    ensures first <= n <= |bars| && IsQuietUntil(tr, bars, first, n, end)
    ensures var exit := Path(tr, bars, first, i, end, WalkTo(tr.setup, bars, first, i));
            if n < |bars| && bars[n].time < end then EndsAtBar(tr, bars, first, n, exit)
            else EndsWithTheTest(tr, bars, first, n, end, exit)
    decreases |bars| - i
  {
    if i == |bars| || bars[i].time >= end {
      ClampIsWorth(tr.setup, LastClose(bars, tr.setup.entry));
      return i;
    }
    ObserveWalks(tr.setup, bars, first, i);
    forall reason
      ensures ReasonAt(tr, bars[first..i + 1], WalkTo(tr.setup, bars, first, i + 1)) == Some(reason) <==>
                Shows(tr, bars, first, i, reason)
    {
      ReasonIsShown(tr, bars, first, i, reason);
    }
    if IsQuiet(tr, bars, first, i) {
      n := TradeEndsAtTheFirstReason(tr, bars, first, i + 1, end);
    } else {
      ClampIsWorth(tr.setup, bars[i].close);
      n := i;
    }
  }

  /** So does every trade as the replay runs it. */
  lemma ReplayedTradeEnds(tr: Trade, bars: seq<Bar>, first: nat, end: int) returns (n: nat)
    requires first <= |bars|
    ensures first <= n <= |bars| && IsQuietUntil(tr, bars, first, n, end)
    ensures var exit := Path(tr, bars, first, first, end, FRESH);
            if n < |bars| && bars[n].time < end then EndsAtBar(tr, bars, first, n, exit)
            else EndsWithTheTest(tr, bars, first, n, end, exit)
  {
    assert WalkTo(tr.setup, bars, first, first) == FRESH;
    n := TradeEndsAtTheFirstReason(tr, bars, first, first, end);
  }

  // ---- The setup ----

  /** The mean of the last fourteen true ranges. */
  function Ranges(history: seq<Bar>, n: nat): seq<real>
    requires n < |history|
  {
    seq(n, k requires 0 <= k < n =>
      TrueRange(history[|history| - 1 - n + k], history[|history| - n + k]))
  }

  lemma {:induction false} SumPrepend(x: real, xs: seq<real>)
    ensures Sum([x] + xs) == x + Sum(xs)
  {
    if xs != [] {
      SumPrepend(x, xs[..|xs| - 1]);
      assert ([x] + xs)[..|xs|] == [x] + xs[..|xs| - 1];
    }
  }

  lemma {:induction false} SumsTheRanges(history: seq<Bar>, n: nat)
    requires n < |history|
    ensures SumTrueRange(history, n) == Sum(Ranges(history, n))
  {
    if n > 0 {
      SumsTheRanges(history, n - 1);
      var x := TrueRange(history[|history| - n - 1], history[|history| - n]);
      SumPrepend(x, Ranges(history, n - 1));
      assert Ranges(history, n) == [x] + Ranges(history, n - 1);
    }
  }

  /** Fourteen times the ATR is the total of the last fourteen true ranges; a shorter history has none. */
  lemma AtrIsTheMeanRange(history: seq<Bar>)
    ensures |history| >= 15 ==> 14.0 * Atr(history) == Sum(Ranges(history, 14))
    ensures |history| < 15 ==> Atr(history) == 0.0
  {
    if |history| >= 15 {
      SumsTheRanges(history, 14);
    }
  }

  /** A true range spans the bar and the close before it: the least interval that holds all three prices. */
  lemma TrueRangeSpansTheGap(previous: Bar, current: Bar)
    requires current.low <= current.high
    ensures TrueRange(previous, current) == Max(current.high, previous.close) - Min(current.low, previous.close)
  {
  }

  /** A widened setup keeps the entry and multiplies both distances. */
  lemma WidenMultipliesTheDistances(s: Signal, stopMultiplier: Multiplier, targetMultiplier: real)
    ensures var t := Widen(s, stopMultiplier, targetMultiplier);
            && (t.None? <==> (s.target - s.entry) * targetMultiplier <= 0.0)
            && (t.Some? ==>
                  && t.value.entry == s.entry
                  && t.value.target - t.value.entry == (s.target - s.entry) * targetMultiplier
                  && t.value.risk == (if s.entry > s.stop then s.entry - s.stop else s.stop - s.entry) * stopMultiplier)
  {
    assert Abs(s.entry - s.stop) == if s.entry > s.stop then s.entry - s.stop else s.stop - s.entry;
  }

  /** A replayed trade has its obstacle in units of the widened risk, and the ATR of the twenty bars before it. */
  lemma TradeOfASignal(policy: Policy, m: Multiplier, s: Signal, t: Setup, bars: seq<Bar>, first: nat)
    requires first <= |bars|
    ensures var tr := TradeOf(policy, m, s, t, bars, first);
            && tr.policy == policy && tr.setup == t && tr.obstacleR * m == s.firstObstacleR
            && (first >= 20 ==> tr.atr == Atr(bars[first - 20..first]))
            && (first < 20 ==> tr.atr == Atr(bars[..first]))
  {
  }
}
