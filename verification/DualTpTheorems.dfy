/** What the dual take-profit replay guarantees for every bar path. */
module DualTpTheorems {
  import opened Prelude
  import opened Bars
  import opened Schedule
  import opened DualTp
  import Reports

  // ---- A split position is the weighted average of the two full positions ----

  /** A plan whose stop stays where it was placed. */
  ghost predicate KeepsStop(p: Plan) {
    Valid(p) && !p.moveBe && !p.profitLock
  }

  lemma MixedByFraction(p: Plan, f: real, x: real)
    requires Risk(p) > 0.0
    ensures Mixed(p.(runner := f), x) == (1.0 - f) * TpR(p, p.tp1) + f * x
    ensures Mixed(p.(runner := 0.0), x) == TpR(p, p.tp1)
    ensures Mixed(p.(runner := 1.0), x) == x
  {
  }

  /** Once TP1 is filled, the split runner and the full TP2 position live and die together. */
  lemma {:induction false} RunnerFollowsFullTp2(p: Plan, bars: seq<Bar>, i: nat, end: int, w: Walk)
    requires KeepsStop(p) && p.runner > 0.0 && i <= |bars| && w.tp1TakenAt.Some?
    ensures var split, full := Path(p, bars, i, end, w), Path(p.(runner := 1.0), bars, i, end, w);
            split == full.(outcomeR := Mixed(p, full.outcomeR))
    decreases |bars| - i
  {
    var full := p.(runner := 1.0);
    if i == |bars| || bars[i].time >= end {
      MixedByFraction(p, 1.0, RAt(p, LastClose(bars, p.entry)));
    } else {
      var x := Excursion(p, w, bars[i]);
      assert x == Excursion(full, w, bars[i]);
      MixedByFraction(p, 1.0, RAt(p, w.activeStop));
      MixedByFraction(p, 1.0, TpR(p, p.tp2));
      if OnBar(p, w, bars[i]).Continue? {
        assert OnBar(p, w, bars[i]) == OnBar(full, w, bars[i]) == Continue(x);
        RunnerFollowsFullTp2(p, bars, i + 1, end, x);
      }
    }
  }

  lemma Blend(f: real, a: real, b: real, c: real)
    requires a == b == c
    ensures c == (1.0 - f) * a + f * b
  {
  }

  ghost predicate Convex(p: Plan, split: Exit, full1: Exit, full2: Exit) {
    && split.outcomeR == (1.0 - p.runner) * full1.outcomeR + p.runner * full2.outcomeR
    && split.closedAt == full2.closedAt && split.result == full2.result
    && split.tp1TakenAt == full2.tp1TakenAt == full1.tp1TakenAt
    && (split.tp1TakenAt.Some? ==> full1.closedAt == split.tp1TakenAt.value)
  }

  /** Until TP1 is filled one bar ends all three trades, or none, or fills TP1 and ends the TP1 position. */
  lemma BarIsConvex(p: Plan, w: Walk, b: Bar)
    requires KeepsStop(p) && p.runner > 0.0 && w.tp1TakenAt.None?
    ensures var s, s1, s2 := OnBar(p, w, b), OnBar(p.(runner := 0.0), w, b), OnBar(p.(runner := 1.0), w, b);
            match s
            case Done(exit) => s1.Done? && s2.Done? && Convex(p, exit, s1.exit, s2.exit)
            case Continue(w') =>
              && s2 == s
              && (if w'.tp1TakenAt.None? then s1 == s
                  else s1.Done? && s1.exit.outcomeR == TpR(p, p.tp1)
                       && s1.exit.tp1TakenAt == w'.tp1TakenAt == Some(s1.exit.closedAt))
  {
    var x := Excursion(p, w, b);
    assert x == Excursion(p.(runner := 0.0), w, b) == Excursion(p.(runner := 1.0), w, b);
    var s, s1, s2 := OnBar(p, w, b), OnBar(p.(runner := 0.0), w, b), OnBar(p.(runner := 1.0), w, b);
    if StopHit(p, w.activeStop, b) {
      Blend(p.runner, -1.0, -1.0, -1.0);
    } else if Reaches(p, p.tp2, b) {
      MixedByFraction(p, p.runner, TpR(p, p.tp2));
      FilledIsConvex(p, s.exit, s1.exit, s2.exit);
    }
  }

  lemma {:induction false} SplitPathIsConvex(p: Plan, bars: seq<Bar>, i: nat, end: int, w: Walk)
    requires KeepsStop(p) && p.runner > 0.0 && i <= |bars| && w.tp1TakenAt.None?
    ensures Convex(p, Path(p, bars, i, end, w),
                   Path(p.(runner := 0.0), bars, i, end, w), Path(p.(runner := 1.0), bars, i, end, w))
    decreases |bars| - i
  {
    if i == |bars| || bars[i].time >= end {
      var r := RAt(p, LastClose(bars, p.entry));
      Blend(p.runner, r, r, r);
    } else {
      BarIsConvex(p, w, bars[i]);
      var step, step1 := OnBar(p, w, bars[i]), OnBar(p.(runner := 0.0), w, bars[i]);
      if step.Done? {
      } else if step.walk.tp1TakenAt.None? {
        SplitPathIsConvex(p, bars, i + 1, end, step.walk);
      } else {
        RunnerFollowsFullTp2(p, bars, i + 1, end, step.walk);
        TakenAtIsKept(p, bars, i + 1, end, step.walk);
        assert Path(p.(runner := 0.0), bars, i, end, w) == step1.exit;
        FilledIsConvex(p, Path(p, bars, i + 1, end, step.walk), step1.exit,
          Path(p.(runner := 1.0), bars, i + 1, end, step.walk));
      }
    }
  }

  /** A split trade that filled TP1 mixes the TP1 profit with what the full TP2 position earned. */
  lemma {:induction false} FilledSplitIsMixed(p: Plan, bars: seq<Bar>, i: nat, end: int, w: Walk)
    requires KeepsStop(p) && p.runner > 0.0 && i <= |bars| && w.tp1TakenAt.None?
    ensures var split, full := Path(p, bars, i, end, w), Path(p.(runner := 1.0), bars, i, end, w);
            split.tp1TakenAt.Some? ==> split.outcomeR == Mixed(p, full.outcomeR)
    decreases |bars| - i
  {
    if i < |bars| && bars[i].time < end {
      BarIsConvex(p, w, bars[i]);
      MixedByFraction(p, 1.0, TpR(p, p.tp2));
      var step := OnBar(p, w, bars[i]);
      if step.Continue? {
        if step.walk.tp1TakenAt.None? {
          FilledSplitIsMixed(p, bars, i + 1, end, step.walk);
        } else {
          RunnerFollowsFullTp2(p, bars, i + 1, end, step.walk);
        }
      }
    }
  }

  lemma FilledIsConvex(p: Plan, split: Exit, full1: Exit, full2: Exit)
    requires Risk(p) > 0.0
    requires full1.outcomeR == TpR(p, p.tp1) && full1.tp1TakenAt == Some(full1.closedAt) == full2.tp1TakenAt
    requires split == full2.(outcomeR := split.outcomeR) && split.outcomeR == Mixed(p, full2.outcomeR)
    ensures Convex(p, split, full1, full2)
  {
  }

  lemma {:induction false} TakenAtIsKept(p: Plan, bars: seq<Bar>, i: nat, end: int, w: Walk)
    requires Valid(p) && i <= |bars| && w.tp1TakenAt.Some?
    ensures Path(p, bars, i, end, w).tp1TakenAt == w.tp1TakenAt
    decreases |bars| - i
  {
    if i < |bars| && bars[i].time < end && OnBar(p, w, bars[i]).Continue? {
      TakenAtIsKept(p, bars, i + 1, end, OnBar(p, w, bars[i]).walk);
    }
  }

  /** Keep-stop policies differ only in the fraction they leave running. */
  lemma KeepStopPoliciesShareThePlan(policy: Policy, side: Side, s: Signal, riskAtrLimit: real)
    requires policy.SplitKeepStop? || policy.EnginePartialKeepStop? || policy.AdaptiveEngine?
    ensures var p, one, two := PlanOf(policy, side, s, riskAtrLimit), PlanOf(FullTp1, side, s, riskAtrLimit),
      PlanOf(FullTp2, side, s, riskAtrLimit);
            && p.Some? == one.Some? == two.Some?
            && (p.Some? ==> && KeepsStop(p.value)
                            && one.value == p.value.(runner := 0.0) && two.value == p.value.(runner := 1.0))
  {
    PoliciesAreExecutable(policy, side, s, riskAtrLimit);
  }

  ghost predicate IsAverage(split: Executed, one: Executed, two: Executed) {
    && split.exit.outcomeR == (1.0 - split.plan.runner) * one.exit.outcomeR + split.plan.runner * two.exit.outcomeR
    && one.exit.tp1TakenAt == two.exit.tp1TakenAt
  }

  /** On every history, a keep-stop policy earns the weighted average of FULL_TP1 and FULL_TP2. */
  lemma KeepStopPolicyIsTheAverage(
      policy: Policy, side: Side, s: Signal, riskAtrLimit: real, bars: seq<Bar>, end: int)
    requires policy.SplitKeepStop? || policy.EnginePartialKeepStop? || policy.AdaptiveEngine?
    requires Attempt(policy, side, riskAtrLimit, bars, end, s).Some?
    ensures Attempt(FullTp1, side, riskAtrLimit, bars, end, s).Some?
    ensures Attempt(FullTp2, side, riskAtrLimit, bars, end, s).Some?
    ensures IsAverage(
              Attempt(policy, side, riskAtrLimit, bars, end, s).value,
              Attempt(FullTp1, side, riskAtrLimit, bars, end, s).value,
              Attempt(FullTp2, side, riskAtrLimit, bars, end, s).value)
  {
    KeepStopPoliciesShareThePlan(policy, side, s, riskAtrLimit);
    var p := PlanOf(policy, side, s, riskAtrLimit).value;
    AttemptIsPath(policy, side, riskAtrLimit, bars, end, s, p);
    AttemptIsPath(FullTp1, side, riskAtrLimit, bars, end, s, p.(runner := 0.0));
    AttemptIsPath(FullTp2, side, riskAtrLimit, bars, end, s, p.(runner := 1.0));
    SplitPathIsConvexFor(p, bars, s.openedAt, end);
  }

  lemma AttemptIsPath(policy: Policy, side: Side, riskAtrLimit: real, bars: seq<Bar>, end: int, s: Signal, p: Plan)
    requires Valid(p) && PlanOf(policy, side, s, riskAtrLimit) == Some(p)
    ensures Attempt(policy, side, riskAtrLimit, bars, end, s)
         == Some(On(p, bars, s.openedAt, end))
  {
  }

  lemma SplitPathIsConvexFor(p: Plan, bars: seq<Bar>, openedAt: int, end: int)
    requires KeepsStop(p)
    ensures IsAverage(On(p, bars, openedAt, end), On(p.(runner := 0.0), bars, openedAt, end),
        On(p.(runner := 1.0), bars, openedAt, end))
  {
    var i := StartIndex(bars, openedAt);
    var split, one, two := On(p, bars, openedAt, end), On(p.(runner := 0.0), bars, openedAt, end),
      On(p.(runner := 1.0), bars, openedAt, end);
    if p.runner > 0.0 {
      SplitPathIsConvex(p, bars, i, end, Start(p));
      ConvexIsAverage(p, split, one, two);
    } else {
      assert p == p.(runner := 0.0);
      var full := p.(runner := 1.0);
      SplitPathIsConvex(full, bars, i, end, Start(p));
      assert full.(runner := 0.0) == p && full.(runner := 1.0) == full;
      assert Convex(full, two.exit, one.exit, two.exit);
      NoRunnerIsAverage(split, two);
    }
  }

  lemma ConvexIsAverage(p: Plan, split: Executed, one: Executed, two: Executed)
    requires split.plan == p && Convex(p, split.exit, one.exit, two.exit)
    ensures IsAverage(split, one, two)
  {
  }

  lemma NoRunnerIsAverage(one: Executed, two: Executed)
    requires one.plan.runner == 0.0 && one.exit.tp1TakenAt == two.exit.tp1TakenAt
    ensures IsAverage(one, one, two)
  {
  }

  // ---- Outcomes are bounded by the initial risk and the far target ----

  /** After TP1 the runner's stop is worth between the initial loss and the far target. */
  ghost predicate StopIsBounded(p: Plan, w: Walk)
    requires Valid(p)
  {
    if w.tp1TakenAt.None? then w.activeStop == p.stop
    else -1.0 <= RAt(p, w.activeStop) <= TpR(p, p.tp2)
  }

  lemma UnitRatio(x: real)
    requires x != 0.0
    ensures x / Abs(x) == 1.0 || x / Abs(x) == -1.0
  {
    if x > 0.0 { assert x / x == 1.0; } else { var y := -x; assert (-1.0 * y) / y == -1.0; }
  }

  lemma MixBounds(f: real, a: real, b: real, x: real)
    requires 0.0 <= f <= 1.0 && 0.0 <= a <= b && -1.0 <= x <= b
    ensures -1.0 <= (1.0 - f) * a + f * x <= b
  {
    assert 0.0 <= (1.0 - f) * a <= (1.0 - f) * b;
    assert -f <= f * x <= f * b;
    assert (1.0 - f) * b + f * b == b;
  }

  lemma ScaleBack(d: real, r: real)
    requires d > 0.0
    ensures (d * r) / d == r
  {
  }

  lemma Targets(p: Plan)
    requires Valid(p)
    ensures RAt(p, p.tp1) == TpR(p, p.tp1) && RAt(p, p.tp2) == TpR(p, p.tp2) && RAt(p, p.entry) == 0.0
    ensures 0.0 < TpR(p, p.tp1) <= TpR(p, p.tp2)
    ensures RAt(p, p.stop) == -1.0 || RAt(p, p.stop) == 1.0
  {
    DivMonotone(Abs(p.tp1 - p.entry), Abs(p.tp2 - p.entry), Risk(p));
    UnitRatio(p.stop - p.entry);
    UnitRatio(p.entry - p.stop);
  }

  lemma MixedIsBetween(p: Plan, x: real)
    requires Valid(p) && -1.0 <= x <= TpR(p, p.tp2)
    ensures -1.0 <= Mixed(p, x) <= TpR(p, p.tp2)
  {
    Targets(p);
    MixBounds(p.runner, TpR(p, p.tp1), TpR(p, p.tp2), x);
  }

  /** A stop left in place lies short of TP2 on any bar that did not trigger it. */
  lemma KeptStopIsBounded(p: Plan, b: Bar)
    requires Valid(p) && b.low <= b.high && !StopHit(p, p.stop, b) && !Reaches(p, p.tp2, b)
    ensures -1.0 <= RAt(p, p.stop) <= TpR(p, p.tp2)
  {
    Targets(p);
    if p.side.Buy? {
      DivMonotone(p.stop - p.entry, p.tp2 - p.entry, Risk(p));
    } else {
      DivMonotone(p.entry - p.stop, p.entry - p.tp2, Risk(p));
    }
  }

  lemma LockedStopR(p: Plan)
    requires Valid(p) && p.profitLock
    ensures RAt(p, StopAfter(p, p.stop)) == RunnerStopR(p)
  {
    ScaleBack(Risk(p), RunnerStopR(p));
  }

  lemma StopAfterIsBounded(p: Plan, b: Bar)
    requires Valid(p) && b.low <= b.high && !StopHit(p, p.stop, b) && !Reaches(p, p.tp2, b)
    ensures -1.0 <= RAt(p, StopAfter(p, p.stop)) <= TpR(p, p.tp2)
  {
    if p.profitLock {
      LockedStopR(p);
      Targets(p);
    } else if p.moveBe {
      Targets(p);
    } else {
      KeptStopIsBounded(p, b);
    }
  }

  lemma {:induction false} ResolvedPathIsBounded(p: Plan, bars: seq<Bar>, i: nat, end: int, w: Walk)
    requires Valid(p) && i <= |bars| && WellFormed(bars) && StopIsBounded(p, w)
    ensures var exit := Path(p, bars, i, end, w);
            exit.result != EndOfTest ==> -1.0 <= exit.outcomeR <= TpR(p, p.tp2)
    decreases |bars| - i
  {
    if i < |bars| && bars[i].time < end {
      var b := bars[i];
      Targets(p);
      MixedIsBetween(p, TpR(p, p.tp2));
      if w.tp1TakenAt.Some? {
        MixedIsBetween(p, RAt(p, w.activeStop));
      } else if !StopHit(p, p.stop, b) && !Reaches(p, p.tp2, b) {
        StopAfterIsBounded(p, b);
      }
      if OnBar(p, w, b).Continue? {
        ResolvedPathIsBounded(p, bars, i + 1, end, OnBar(p, w, b).walk);
      }
    }
  }

  /** Under every policy a resolved trade loses at most 1R and earns at most the TP2 distance. */
  lemma ResolvedTradesAreBounded(policy: Policy, side: Side, s: Signal, riskAtrLimit: real, bars: seq<Bar>, end: int)
    requires WellFormed(bars)
    ensures var e := Attempt(policy, side, riskAtrLimit, bars, end, s);
            e.Some? && e.value.exit.result != EndOfTest ==>
              Valid(e.value.plan) && -1.0 <= e.value.exit.outcomeR <= TpR(e.value.plan, e.value.plan.tp2)
  {
    PoliciesAreExecutable(policy, side, s, riskAtrLimit);
    var plan := PlanOf(policy, side, s, riskAtrLimit);
    if plan.Some? {
      ResolvedPathIsBounded(plan.value, bars, StartIndex(bars, s.openedAt), end, Start(plan.value));
    }
  }

  // ---- The profit lock ----

  function LockFloor(p: Plan): real
    requires Valid(p)
  {
    PROFIT_LOCK_RETAINED_FRACTION * ((1.0 - p.runner) * TpR(p, p.tp1))
  }

  /** The runner stop leaves at least the retained share of the realized profit, also when it is clamped. */
  lemma LockKeepsTheShare(tp1R: real, tp1Fraction: real, runner: real, retained: real)
    requires tp1R > 0.0 && tp1Fraction > 0.0 && 0.0 < runner < 1.0 && 0.0 < retained < 1.0
    ensures var stopR := ProfitLockRunnerStopR(tp1R, tp1Fraction, runner, retained).value;
            tp1Fraction * tp1R + runner * stopR >= retained * (tp1Fraction * tp1R) > 0.0
  {
    var stopR := ProfitLockRunnerStopR(tp1R, tp1Fraction, runner, retained).value;
    var realized := tp1Fraction * tp1R;
    var raw := (realized * retained - realized) / runner;
    assert raw * runner == realized * retained - realized;
    assert realized * retained < realized * 1.0;
    assert stopR >= raw;
    assert runner * stopR >= runner * raw;
  }

  lemma LockStopKeepsTheFloor(p: Plan)
    requires Valid(p) && p.profitLock
    ensures Mixed(p, RunnerStopR(p)) >= LockFloor(p) > 0.0
  {
    Targets(p);
    LockKeepsTheShare(TpR(p, p.tp1), 1.0 - p.runner, p.runner, PROFIT_LOCK_RETAINED_FRACTION);
  }

  lemma MixedIsMonotone(p: Plan, x: real, y: real)
    requires Valid(p) && x <= y
    ensures Mixed(p, x) <= Mixed(p, y)
  {
    assert p.runner * x <= p.runner * y;
  }

  lemma {:induction false} LockedPathKeepsTheFloor(p: Plan, bars: seq<Bar>, i: nat, end: int, w: Walk)
    requires Valid(p) && p.profitLock && i <= |bars| && WellFormed(bars)
    requires if w.tp1TakenAt.None? then w.activeStop == p.stop else RAt(p, w.activeStop) == RunnerStopR(p)
    ensures var exit := Path(p, bars, i, end, w);
            exit.result != EndOfTest && exit.tp1TakenAt.Some? ==> exit.outcomeR >= LockFloor(p)
    decreases |bars| - i
  {
    if i < |bars| && bars[i].time < end {
      var b := bars[i];
      Targets(p);
      LockStopKeepsTheFloor(p);
      MixedIsMonotone(p, RunnerStopR(p), TpR(p, p.tp2));
      LockedStopR(p);
      if OnBar(p, w, b).Continue? {
        LockedPathKeepsTheFloor(p, bars, i + 1, end, OnBar(p, w, b).walk);
      }
    }
  }

  /** A profit-locked trade that filled TP1 keeps a quarter of the realized TP1 profit, whatever follows. */
  lemma ProfitLockKeepsTheFloor(policy: Policy, side: Side, s: Signal, riskAtrLimit: real, bars: seq<Bar>, end: int)
    requires WellFormed(bars)
    ensures var e := Attempt(policy, side, riskAtrLimit, bars, end, s);
            e.Some? && e.value.plan.profitLock && e.value.exit.result != EndOfTest && e.value.exit.tp1TakenAt.Some? ==>
              Valid(e.value.plan) && e.value.exit.outcomeR >= LockFloor(e.value.plan) > 0.0
  {
    PoliciesAreExecutable(policy, side, s, riskAtrLimit);
    var plan := PlanOf(policy, side, s, riskAtrLimit);
    if plan.Some? && plan.value.profitLock {
      LockStopKeepsTheFloor(plan.value);
      LockedPathKeepsTheFloor(plan.value, bars, StartIndex(bars, s.openedAt), end, Start(plan.value));
    }
  }

  // ---- Times and excursions ----

  /** Bar `k` is one the trade lived through. */
  ghost predicate LivedThrough(bars: seq<Bar>, i: nat, end: int, exit: Exit, k: int) {
    && i <= k < |bars| && bars[k].time < end
    && (exit.result != EndOfTest ==> bars[k].time + ONE_MINUTE <= exit.closedAt)
  }

  /** A resolved trade closes one minute after a bar it lived through; TP1 is never filled after that. */
  lemma {:induction false} ExitIsCausal(p: Plan, bars: seq<Bar>, i: nat, end: int, w: Walk)
    requires Valid(p) && i <= |bars| && Ordered(bars)
    ensures var exit := Path(p, bars, i, end, w);
            && (exit.result == EndOfTest ==> exit.closedAt == end)
            && (exit.result != EndOfTest ==>
                  exists k :: LivedThrough(bars, i, end, exit, k) && exit.closedAt == bars[k].time + ONE_MINUTE)
            && (w.tp1TakenAt.None? && exit.tp1TakenAt.Some? ==>
                  exists k :: LivedThrough(bars, i, end, exit, k) && exit.tp1TakenAt == Some(bars[k].time + ONE_MINUTE))
    decreases |bars| - i
  {
    if i < |bars| && bars[i].time < end {
      var exit := Path(p, bars, i, end, w);
      match OnBar(p, w, bars[i])
      case Done(_) =>
        assert LivedThrough(bars, i, end, exit, i);
      case Continue(w') =>
        ExitIsCausal(p, bars, i + 1, end, w');
        if exit.result != EndOfTest {
          var k :| LivedThrough(bars, i + 1, end, exit, k) && exit.closedAt == bars[k].time + ONE_MINUTE;
          assert LivedThrough(bars, i, end, exit, k);
        }
        assert LivedThrough(bars, i, end, exit, i);
        if w.tp1TakenAt.None? && w'.tp1TakenAt.None? && exit.tp1TakenAt.Some? {
          var k :| LivedThrough(bars, i + 1, end, exit, k) && exit.tp1TakenAt == Some(bars[k].time + ONE_MINUTE);
          assert LivedThrough(bars, i, end, exit, k);
        } else if w.tp1TakenAt.None? && w'.tp1TakenAt.Some? {
          TakenAtIsKept(p, bars, i + 1, end, w');
        }
    }
  }

  /** The reported excursions bracket every price of every bar the trade lived through. */
  lemma {:induction false} ExcursionsCoverThePath(p: Plan, bars: seq<Bar>, i: nat, end: int, w: Walk)
    requires Valid(p) && i <= |bars| && Ordered(bars)
    ensures var exit := Path(p, bars, i, end, w);
            && exit.mae <= w.mae && w.mfe <= exit.mfe
            && (forall k :: LivedThrough(bars, i, end, exit, k) ==> Covers(p, exit, bars[k]))
    decreases |bars| - i
  {
    if i < |bars| && bars[i].time < end {
      var exit := Path(p, bars, i, end, w);
      if OnBar(p, w, bars[i]).Continue? {
        var w' := OnBar(p, w, bars[i]).walk;
        ExcursionsCoverThePath(p, bars, i + 1, end, w');
        forall k | LivedThrough(bars, i, end, exit, k) ensures Covers(p, exit, bars[k]) {
          assert k == i || LivedThrough(bars, i + 1, end, exit, k);
        }
      }
    }
  }

  ghost predicate Covers(p: Plan, exit: Exit, b: Bar)
    requires Risk(p) > 0.0
  {
    var best, worst := if p.side.Buy? then b.high else b.low, if p.side.Buy? then b.low else b.high;
    RAt(p, best) <= exit.mfe && exit.mae <= RAt(p, worst)
  }

  // ---- The whole report ----

  /** Executed trades never overlap, and every signal of the report is executed, overlapping or invalid. */
  lemma ReportIsOneAtATime(
      policy: Policy, side: Side, riskAtrLimit: real, bars: seq<Bar>, start: int, end: int, signals: seq<Signal>)
    requires InOrder(signals, Opening)
    ensures var book := Run(start, signals, Opening, Attempter(policy, side, riskAtrLimit, bars, end), Closed);
            && OneAtATime(start, book.executed, OpenedAt, Closed)
            && |book.executed| + book.overlapping + book.invalid == |signals|
  {
    var attempt := Attempter(policy, side, riskAtrLimit, bars, end);
    NeverOverlaps(start, signals, Opening, attempt, OpenedAt, Closed);
    EverySignalIsCountedOnce(start, signals, Opening, attempt, Closed);
  }

  /** A trade that opens before the end of the report closes, and fills TP1, strictly after it opened. */
  lemma TradesCloseAfterOpening(
      policy: Policy, side: Side, s: Signal, riskAtrLimit: real, bars: seq<Bar>, end: int)
    requires Ordered(bars) && s.openedAt < end
    ensures var e := Attempt(policy, side, riskAtrLimit, bars, end, s);
            e.Some? ==>
              && s.openedAt == OpenedAt(e.value) < Closed(e.value) && Valid(e.value.plan) && e.value.plan.side == side
              && (e.value.exit.tp1TakenAt.Some? ==> s.openedAt < e.value.exit.tp1TakenAt.value)
  {
    PoliciesAreExecutable(policy, side, s, riskAtrLimit);
    var plan := PlanOf(policy, side, s, riskAtrLimit);
    if plan.Some? {
      var i := StartIndex(bars, s.openedAt);
      ExitIsCausal(plan.value, bars, i, end, Start(plan.value));
      assert forall k :: i < k < |bars| ==> bars[i].time < bars[k].time;
    }
  }

  ghost predicate OpenBefore(signals: seq<Signal>, end: int) {
    forall s :: s in signals ==> s.openedAt < end
  }

  ghost predicate ClosesAfterOpening(e: Executed) {
    && OpenedAt(e) < Closed(e)
    && (e.exit.tp1TakenAt.Some? ==> OpenedAt(e) < e.exit.tp1TakenAt.value)
  }

  lemma ReportClosesAfterOpening(
      policy: Policy, side: Side, riskAtrLimit: real, bars: seq<Bar>, start: int, end: int, signals: seq<Signal>)
    requires Ordered(bars) && OpenBefore(signals, end)
    ensures var es := Run(start, signals, Opening, Attempter(policy, side, riskAtrLimit, bars, end), Closed).executed;
            forall e :: e in es ==> ClosesAfterOpening(e) && Valid(e.plan) && e.plan.side == side
  {
    var attempt := Attempter(policy, side, riskAtrLimit, bars, end);
    ExecutedComeFromSignals(start, signals, Opening, attempt, Closed);
    forall e | e in Run(start, signals, Opening, attempt, Closed).executed
      ensures ClosesAfterOpening(e) && Valid(e.plan) && e.plan.side == side
    {
      var s :| s in signals && attempt(s) == Some(e);
      TradesCloseAfterOpening(policy, side, s, riskAtrLimit, bars, end);
    }
  }

  /**
   * The drawdown of a report is that of its trades in the order in which they were executed: sorting by closing time
   * moves nothing.
   */
  lemma ReportClosesInOrder(
      policy: Policy, side: Side, riskAtrLimit: real, bars: seq<Bar>, start: int, end: int, signals: seq<Signal>)
    requires Ordered(bars) && OpenBefore(signals, end) && InOrder(signals, Opening)
    ensures var es := Run(start, signals, Opening, Attempter(policy, side, riskAtrLimit, bars, end), Closed).executed;
            && Reports.InClosingOrder(es, Closed) == es
            && (forall i, j :: 0 <= i < j < |es| ==> OpenedAt(es[i]) < OpenedAt(es[j]))
  {
    var es := Run(start, signals, Opening, Attempter(policy, side, riskAtrLimit, bars, end), Closed).executed;
    ReportIsOneAtATime(policy, side, riskAtrLimit, bars, start, end, signals);
    ReportClosesAfterOpening(policy, side, riskAtrLimit, bars, start, end, signals);
    Reports.OneAtATimeClosesInOrder(start, es, OpenedAt, Closed);
    forall i, j | 0 <= i < j < |es| ensures OpenedAt(es[i]) < OpenedAt(es[j]) {
      assert ClosesAfterOpening(es[i]);
    }
  }

  lemma {:induction false} AllocationsAddUp(es: seq<Executed>)
    requires forall e :: e in es ==> e.plan.runner == 0.0 || e.plan.runner == 0.5 || e.plan.runner == 1.0
    ensures Reports.CountWhere(es, Flags()[4]) + Reports.CountWhere(es, Flags()[5])
         + Reports.CountWhere(es, Flags()[6]) == |es|
  {
    if es != [] {
      var n := |es| - 1;
      assert es[n] in es;
      AllocationsAddUp(es[..n]);
    }
  }

  /** Every executed trade is counted as exactly one of TP1-only, split and TP2-only. */
  lemma EveryTradeHasOneAllocation(
      policy: Policy, side: Side, riskAtrLimit: real, bars: seq<Bar>, start: int, end: int, signals: seq<Signal>,
      summary: Reports.Summary)
    requires var es := Run(start, signals, Opening, Attempter(policy, side, riskAtrLimit, bars, end), Closed).executed;
             Reports.Summarizes(summary, es, Flags(), OutcomeR, Closed)
    ensures summary.counts[4] + summary.counts[5] + summary.counts[6] == summary.signals
  {
    var attempt := Attempter(policy, side, riskAtrLimit, bars, end);
    var es := Run(start, signals, Opening, attempt, Closed).executed;
    ExecutedComeFromSignals(start, signals, Opening, attempt, Closed);
    forall e | e in es ensures e.plan.runner == 0.0 || e.plan.runner == 0.5 || e.plan.runner == 1.0 {
      var s :| s in signals && attempt(s) == Some(e);
      PoliciesAreExecutable(policy, side, s, riskAtrLimit);
    }
    AllocationsAddUp(es);
  }
}
