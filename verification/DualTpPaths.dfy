/** The dual-target trade as two first touches: the stop against TP1, then the runner's stop against TP2. */
module DualTpPaths {
  import opened Prelude
  import opened Bars
  import opened DualTp
  import Theorems = DualTpTheorems

  // ---- Prices and results, said outright ----

  /** What leaving the whole position at `price` gains, in units of the distance between entry and stop. */
  ghost function Gain(p: Plan, price: real): real
    requires Valid(p)
  {
    (if p.side.Buy? then price - p.entry else p.entry - price) / Abs(p.entry - p.stop)
  }

  /** TP1 is paid on its share, and the runner ends with `runnerGain`. */
  ghost function Shared(p: Plan, runnerGain: real): real
    requires Valid(p)
  {
    (1.0 - p.runner) * Gain(p, p.tp1) + p.runner * runnerGain
  }

  /** The loss on a runner that gives back three quarters of what was realized, but no more than 1R. */
  ghost function LossFor(realized: real, runner: real): real
    requires runner > 0.0
  {
    var givenBack := 0.75 * realized / runner;
    -(if givenBack < 0.0 then 0.0 else if givenBack > 1.0 then 1.0 else givenBack)
  }

  ghost function LockedGain(p: Plan): real
    requires Valid(p) && p.runner > 0.0
  {
    LossFor((1.0 - p.runner) * Gain(p, p.tp1), p.runner)
  }

  /** Where the stop of the runner stands after TP1: the locked price, the entry, or the original stop. */
  ghost function RunnerStop(p: Plan): real
    requires Valid(p)
  {
    if p.profitLock then
      p.entry + (if p.side.Buy? then 1.0 else -1.0) * (Abs(p.entry - p.stop) * LockedGain(p))
    else if p.moveBe then p.entry
    else p.stop
  }

  ghost predicate FallsTo(side: Side, stop: real, b: Bar) {
    if side.Buy? then b.low <= stop else b.high >= stop
  }

  ghost predicate RisesTo(side: Side, target: real, b: Bar) {
    if side.Buy? then b.high >= target else b.low <= target
  }

  /** Bar `k` is the first one before the end to touch the stop or the target. */
  ghost predicate FirstTouch(side: Side, stop: real, target: real, bars: seq<Bar>, i: nat, end: int, k: int) {
    && i <= k < |bars| && (FallsTo(side, stop, bars[k]) || RisesTo(side, target, bars[k]))
    && (forall j :: i <= j <= k ==> bars[j].time < end)
    && (forall j :: i <= j < k ==> !FallsTo(side, stop, bars[j]) && !RisesTo(side, target, bars[j]))
  }

  ghost predicate Untouched(side: Side, stop: real, target: real, bars: seq<Bar>, i: nat, end: int) {
    forall k :: !FirstTouch(side, stop, target, bars, i, end, k)
  }

  lemma GainIsRAt(p: Plan, price: real)
    requires Valid(p)
    ensures Gain(p, price) == RAt(p, price)
  {
  }

  lemma TargetGains(p: Plan)
    requires Valid(p)
    ensures Gain(p, p.tp1) == TpR(p, p.tp1) && Gain(p, p.tp2) == TpR(p, p.tp2) && Gain(p, p.entry) == 0.0
    ensures 0.0 < Gain(p, p.tp1) < Gain(p, p.tp2)
  {
    assert Risk(p) == Abs(p.entry - p.stop) > 0.0;
    Smaller(Abs(p.tp1 - p.entry), Abs(p.tp2 - p.entry), Risk(p));
  }

  lemma Smaller(a: real, b: real, d: real)
    requires 0.0 < a < b && d > 0.0
    ensures 0.0 < a / d < b / d
  {
    assert b / d - a / d == (b - a) / d;
    assert (b - a) / d > 0.0 && a / d > 0.0;
  }

  lemma SharedIsMixed(p: Plan, x: real)
    requires Valid(p)
    ensures Shared(p, x) == Mixed(p, x)
  {
    TargetGains(p);
  }

  lemma GivenBack(realized: real, runner: real, loss: real)
    requires runner > 0.0 && loss == realized * 0.25 - realized
    ensures loss / runner == -(0.75 * realized / runner)
  {
    assert loss == -(0.75 * realized);
  }

  lemma ClampedLoss(tp1R: real, tp1Fraction: real, runner: real, realized: real)
    requires 0.0 < runner < 1.0 && realized == tp1Fraction * tp1R
    ensures ProfitLockRunnerStopR(tp1R, tp1Fraction, runner, PROFIT_LOCK_RETAINED_FRACTION)
         == Some(LossFor(realized, runner))
  {
    GivenBack(realized, runner, realized * PROFIT_LOCK_RETAINED_FRACTION - realized);
  }

  lemma LockedGainIsTheStop(p: Plan)
    requires Valid(p) && p.profitLock
    ensures LockedGain(p) == RunnerStopR(p)
  {
    TargetGains(p);
    ClampedLoss(TpR(p, p.tp1), 1.0 - p.runner, p.runner, (1.0 - p.runner) * Gain(p, p.tp1));
  }

  lemma StopAfterIsRunnerStop(p: Plan)
    requires Valid(p)
    ensures StopAfter(p, p.stop) == RunnerStop(p)
  {
    if p.profitLock {
      LockedGainIsTheStop(p);
    }
  }

  // ---- After TP1 ----

  /** How a runner that is held from bar `i` on ends. */
  ghost predicate RunnerEnds(p: Plan, bars: seq<Bar>, i: nat, end: int, exit: Exit)
    requires Valid(p)
  {
    && (Untouched(p.side, RunnerStop(p), p.tp2, bars, i, end) ==>
          && exit.result == EndOfTest && exit.closedAt == end
          && exit.outcomeR == Shared(p, Gain(p, LastClose(bars, p.entry))))
    && (forall k :: FirstTouch(p.side, RunnerStop(p), p.tp2, bars, i, end, k) ==> RunnerEndsAt(p, bars[k], exit))
  }

  ghost predicate RunnerEndsAt(p: Plan, b: Bar, exit: Exit)
    requires Valid(p)
  {
    && exit.closedAt == b.time + ONE_MINUTE
    && if FallsTo(p.side, RunnerStop(p), b) then
         && exit.result == (if RisesTo(p.side, p.tp2, b) then AmbiguousAfterTp1 else StopAfterTp1)
         && exit.outcomeR == Shared(p, Gain(p, RunnerStop(p)))
       else exit.result == Tp2 && exit.outcomeR == Shared(p, Gain(p, p.tp2))
  }

  lemma NextTouch(side: Side, stop: real, target: real, bars: seq<Bar>, i: nat, next: nat, end: int)
    requires i < |bars| && next == i + 1 && bars[i].time < end
    requires !FallsTo(side, stop, bars[i]) && !RisesTo(side, target, bars[i])
    ensures forall k :: FirstTouch(side, stop, target, bars, i, end, k) <==>
                        FirstTouch(side, stop, target, bars, next, end, k)
  {
  }

  lemma RunnerOnBar(p: Plan, w: Walk, b: Bar)
    requires Valid(p) && w.tp1TakenAt.Some? && w.activeStop == RunnerStop(p)
    ensures match OnBar(p, w, b)
            case Done(exit) =>
              && (FallsTo(p.side, RunnerStop(p), b) || RisesTo(p.side, p.tp2, b))
              && RunnerEndsAt(p, b, exit) && exit.tp1TakenAt == w.tp1TakenAt
            case Continue(w') =>
              && !FallsTo(p.side, RunnerStop(p), b) && !RisesTo(p.side, p.tp2, b)
              && w'.tp1TakenAt == w.tp1TakenAt && w'.activeStop == w.activeStop
  {
    TargetGains(p);
    GainIsRAt(p, RunnerStop(p));
    SharedIsMixed(p, Gain(p, RunnerStop(p)));
    SharedIsMixed(p, Gain(p, p.tp2));
  }

  /** After TP1 the trade is first touch between the stop that the policy names and TP2. */
  lemma {:induction false} RunnerIsFirstTouch(p: Plan, bars: seq<Bar>, i: nat, end: int, w: Walk)
    requires Valid(p) && i <= |bars| && w.tp1TakenAt.Some? && w.activeStop == RunnerStop(p)
    ensures var exit := Path(p, bars, i, end, w);
            RunnerEnds(p, bars, i, end, exit) && exit.tp1TakenAt == w.tp1TakenAt
    decreases |bars| - i
  {
    if i == |bars| || bars[i].time >= end {
      GainIsRAt(p, LastClose(bars, p.entry));
      SharedIsMixed(p, Gain(p, LastClose(bars, p.entry)));
    } else {
      RunnerOnBar(p, w, bars[i]);
      match OnBar(p, w, bars[i])
      case Done(exit) =>
        assert FirstTouch(p.side, RunnerStop(p), p.tp2, bars, i, end, i);
      case Continue(w') =>
        RunnerIsFirstTouch(p, bars, i + 1, end, w');
        NextTouch(p.side, RunnerStop(p), p.tp2, bars, i, i + 1, end);
    }
  }

  // ---- The whole trade ----

  /** How a trade that still waits for TP1 at bar `i` ends. */
  ghost predicate TradeEnds(p: Plan, bars: seq<Bar>, i: nat, end: int, exit: Exit)
    requires Valid(p)
  {
    && (Untouched(p.side, p.stop, p.tp1, bars, i, end) ==>
          && exit.result == EndOfTest && exit.closedAt == end && exit.tp1TakenAt == None
          && exit.outcomeR == Gain(p, LastClose(bars, p.entry)))
    && (forall k :: FirstTouch(p.side, p.stop, p.tp1, bars, i, end, k) ==> TradeTurnsAt(p, bars, k, end, exit))
  }

  /** What the first touch decides: the stop wins, TP2 pays both legs, TP1 pays its share and leaves the runner. */
  ghost predicate TradeTurnsAt(p: Plan, bars: seq<Bar>, k: int, end: int, exit: Exit)
    requires Valid(p) && 0 <= k < |bars|
  {
    var b, at := bars[k], bars[k].time + ONE_MINUTE;
    if FallsTo(p.side, p.stop, b) then
      && exit.result == (if RisesTo(p.side, p.tp1, b) then AmbiguousSameBar else StopBeforeTp1)
      && exit.closedAt == at && exit.outcomeR == -1.0 && exit.tp1TakenAt == None
    else
      && exit.tp1TakenAt == Some(at)
      && if RisesTo(p.side, p.tp2, b) then
           exit.result == Tp2 && exit.closedAt == at && exit.outcomeR == Shared(p, Gain(p, p.tp2))
         else if p.runner == 0.0 then
           exit.result == Tp1 && exit.closedAt == at && exit.outcomeR == Gain(p, p.tp1)
         else RunnerEnds(p, bars, k + 1, end, exit)
  }

  lemma OpenOnBar(p: Plan, w: Walk, b: Bar)
    requires Valid(p) && w.tp1TakenAt.None? && w.activeStop == p.stop
    ensures var at := b.time + ONE_MINUTE;
            match OnBar(p, w, b)
            case Done(exit) =>
              && (FallsTo(p.side, p.stop, b) || RisesTo(p.side, p.tp1, b)) && exit.closedAt == at
              && if FallsTo(p.side, p.stop, b) then
                   && exit.result == (if RisesTo(p.side, p.tp1, b) then AmbiguousSameBar else StopBeforeTp1)
                   && exit.outcomeR == -1.0 && exit.tp1TakenAt == None
                 else
                   && exit.tp1TakenAt == Some(at)
                   && if RisesTo(p.side, p.tp2, b) then
                        exit.result == Tp2 && exit.outcomeR == Shared(p, Gain(p, p.tp2))
                      else p.runner == 0.0 && exit.result == Tp1 && exit.outcomeR == Gain(p, p.tp1)
            case Continue(w') =>
              && !FallsTo(p.side, p.stop, b)
              && if RisesTo(p.side, p.tp1, b) then
                   && !RisesTo(p.side, p.tp2, b) && p.runner > 0.0
                   && w'.tp1TakenAt == Some(at) && w'.activeStop == RunnerStop(p)
                 else w'.tp1TakenAt.None? && w'.activeStop == p.stop
  {
    TargetGains(p);
    SharedIsMixed(p, Gain(p, p.tp2));
    StopAfterIsRunnerStop(p);
  }

  /** A trade is two first touches: the stop against TP1, and for the runner its stop against TP2. */
  lemma {:induction false} TradeIsTwoFirstTouches(p: Plan, bars: seq<Bar>, i: nat, end: int, w: Walk)
    requires Valid(p) && i <= |bars| && w.tp1TakenAt.None? && w.activeStop == p.stop
    ensures TradeEnds(p, bars, i, end, Path(p, bars, i, end, w))
    decreases |bars| - i
  {
    if i == |bars| || bars[i].time >= end {
      GainIsRAt(p, LastClose(bars, p.entry));
    } else {
      OpenOnBar(p, w, bars[i]);
      match OnBar(p, w, bars[i])
      case Done(exit) =>
        assert FirstTouch(p.side, p.stop, p.tp1, bars, i, end, i);
      case Continue(w') =>
        if w'.tp1TakenAt.Some? {
          RunnerIsFirstTouch(p, bars, i + 1, end, w');
          assert FirstTouch(p.side, p.stop, p.tp1, bars, i, end, i);
        } else {
          TradeIsTwoFirstTouches(p, bars, i + 1, end, w');
          NextTouch(p.side, p.stop, p.tp1, bars, i, i + 1, end);
        }
    }
  }

  /** Every trade of a report ends this way, under every policy. */
  lemma ReplayedTradesEnd(policy: Policy, side: Side, s: Signal, riskAtrLimit: real, bars: seq<Bar>, end: int)
    requires Attempt(policy, side, riskAtrLimit, bars, end, s).Some?
    ensures var e := Attempt(policy, side, riskAtrLimit, bars, end, s).value;
            Valid(e.plan) && TradeEnds(e.plan, bars, StartIndex(bars, s.openedAt), end, e.exit)
  {
    PoliciesAreExecutable(policy, side, s, riskAtrLimit);
    var p := PlanOf(policy, side, s, riskAtrLimit).value;
    TradeIsTwoFirstTouches(p, bars, StartIndex(bars, s.openedAt), end, Start(p));
  }

  // ---- Break even ----

  ghost predicate KeepsTheShare(p: Plan, exit: Exit)
    requires Valid(p)
  {
    && exit.outcomeR >= (1.0 - p.runner) * Gain(p, p.tp1)
    && (exit.result.StopAfterTp1? || exit.result.AmbiguousAfterTp1? ==>
          exit.outcomeR == (1.0 - p.runner) * Gain(p, p.tp1))
  }

  lemma RunnerAtEntryOrBetter(p: Plan, bars: seq<Bar>, i: nat, end: int, exit: Exit)
    requires Valid(p) && p.moveBe && !p.profitLock && RunnerEnds(p, bars, i, end, exit)
    ensures exit.result == EndOfTest || KeepsTheShare(p, exit)
  {
    TargetGains(p);
    assert p.runner * Gain(p, p.tp2) >= 0.0;
    if k :| FirstTouch(p.side, RunnerStop(p), p.tp2, bars, i, end, k) {
      assert RunnerEndsAt(p, bars[k], exit);
    }
  }

  lemma SharePaid(p: Plan)
    requires Valid(p)
    ensures (1.0 - p.runner) * Gain(p, p.tp1) <= Gain(p, p.tp1)
    ensures (1.0 - p.runner) * Gain(p, p.tp1) <= Shared(p, Gain(p, p.tp2))
  {
    TargetGains(p);
    assert p.runner * Gain(p, p.tp1) >= 0.0 && p.runner * Gain(p, p.tp2) >= 0.0;
    assert (1.0 - p.runner) * Gain(p, p.tp1) == Gain(p, p.tp1) - p.runner * Gain(p, p.tp1);
  }

  /** Once the stop moves to the entry, a trade that filled TP1 keeps its TP1 share; a stop earns exactly that. */
  lemma BreakEvenKeepsTheShare(policy: Policy, side: Side, s: Signal, riskAtrLimit: real, bars: seq<Bar>, end: int)
    requires Attempt(policy, side, riskAtrLimit, bars, end, s).Some?
    ensures var e := Attempt(policy, side, riskAtrLimit, bars, end, s).value;
            && Valid(e.plan)
            && (e.plan.moveBe && e.exit.tp1TakenAt.Some? && e.exit.result != EndOfTest ==>
                  KeepsTheShare(e.plan, e.exit))
  {
    ReplayedTradesEnd(policy, side, s, riskAtrLimit, bars, end);
    PoliciesAreExecutable(policy, side, s, riskAtrLimit);
    var e := Attempt(policy, side, riskAtrLimit, bars, end, s).value;
    var i := StartIndex(bars, s.openedAt);
    if e.plan.moveBe && e.exit.tp1TakenAt.Some? && e.exit.result != EndOfTest {
      assert !e.plan.profitLock;
      MovedTradeKeepsTheShare(e.plan, bars, i, end, e.exit);
    }
  }

  lemma MovedTradeKeepsTheShare(p: Plan, bars: seq<Bar>, i: nat, end: int, exit: Exit)
    requires Valid(p) && p.moveBe && !p.profitLock && TradeEnds(p, bars, i, end, exit)
    requires exit.tp1TakenAt.Some? && exit.result != EndOfTest
    ensures KeepsTheShare(p, exit)
  {
    var k :| FirstTouch(p.side, p.stop, p.tp1, bars, i, end, k);
    assert TradeTurnsAt(p, bars, k, end, exit);
    SharePaid(p);
    if !RisesTo(p.side, p.tp2, bars[k]) && p.runner != 0.0 {
      RunnerAtEntryOrBetter(p, bars, k + 1, end, exit);
    }
  }

  // ---- Excursions ----

  ghost function Best(p: Plan, b: Bar): real
    requires Valid(p)
  {
    Gain(p, if p.side.Buy? then b.high else b.low)
  }

  ghost function Worst(p: Plan, b: Bar): real
    requires Valid(p)
  {
    Gain(p, if p.side.Buy? then b.low else b.high)
  }

  /** The excursions are reached: on a bar before the end that the trade saw, or where they started. */
  lemma {:induction false} ExcursionsAreReached(p: Plan, bars: seq<Bar>, i: nat, end: int, w: Walk)
    requires Valid(p) && i <= |bars|
    ensures var exit := Path(p, bars, i, end, w);
            && (exit.mfe == w.mfe || exists k :: i <= k < |bars| && bars[k].time < end && exit.mfe == Best(p, bars[k]))
            && (exit.mae == w.mae || exists k :: i <= k < |bars| && bars[k].time < end && exit.mae == Worst(p, bars[k]))
    decreases |bars| - i
  {
    if i < |bars| && bars[i].time < end {
      var x := Excursion(p, w, bars[i]);
      assert x.mfe == w.mfe || x.mfe == Best(p, bars[i]);
      assert x.mae == w.mae || x.mae == Worst(p, bars[i]);
      var step := OnBar(p, w, bars[i]);
      if step.Continue? {
        ExcursionsAreReached(p, bars, i + 1, end, step.walk);
      }
    }
  }
}
