/** What each dual take-profit policy decides at entry, said in prices and recorded evidence. */
module DualTpPolicies {
  import opened Prelude
  import opened DualTp

  /** Distance of a target from the entry, and the initial distance of the stop. */
  ghost function Reach(s: Signal, price: real): real { Abs(price - s.entry) }
  ghost function StopDistance(s: Signal): real { Abs(s.entry - s.stop) }

  /** A BUY inside a range whose first target is near, whose second is far, and whose stop is tight for the market. */
  ghost predicate IsWeakRange(side: Side, s: Signal, p: Plan, riskAtrLimit: real) {
    && side.Buy? && s.evidence.confirmation.Range?
    && 0.75 * StopDistance(s) <= Reach(s, p.tp1) < StopDistance(s)
    && Reach(s, p.tp2) >= 2.0 * Reach(s, p.tp1)
    && if s.evidence.m5Atr > 0.0 then StopDistance(s) < riskAtrLimit * s.evidence.m5Atr else 99.0 < riskAtrLimit
  }

  /** The engine's own reasons to move the stop to the entry after TP1. */
  ghost predicate WantsBreakEven(side: Side, s: Signal, p: Plan) {
    if side.Buy? then
      && s.evidence.confirmation.Range? && s.evidence.executionFirstObstacleR >= 1.0
      && Reach(s, p.tp2) >= 2.0 * Reach(s, p.tp1)
    else
      && s.evidence.m1Touches >= 2 && s.evidence.targetCrossesSupport
      && Reach(s, p.tp2) >= 1.5 * Reach(s, p.tp1)
  }

  ghost predicate Holds(p: Plan, runner: real, moveBe: bool, profitLock: bool) {
    p.runner == runner && p.moveBe == moveBe && p.profitLock == profitLock
  }

  /** What the name of a policy promises. */
  ghost predicate DoesWhatItSays(policy: Policy, side: Side, s: Signal, p: Plan, riskAtrLimit: real) {
    var weak := IsWeakRange(side, s, p, riskAtrLimit);
    match policy
    case FullTp1 => Holds(p, 0.0, false, false)
    case FullTp2 => Holds(p, 1.0, false, false)
    case FullTp2BeAfterTp1 => Holds(p, 1.0, true, false)
    case EngineBeAfterTp1 => Holds(p, 1.0, WantsBreakEven(side, s, p), false)
    case SplitKeepStop => Holds(p, 0.5, false, false)
    case SplitBeAfterTp1 => Holds(p, 0.5, true, false)
    case SplitProfitLockAfterTp1 => Holds(p, 0.5, false, true)
    case EnginePartialKeepStop => Holds(p, if weak then 0.5 else 1.0, false, false)
    case EnginePartialBe => Holds(p, if weak then 0.5 else 1.0, weak, false)
    case EnginePartialProfitLock => Holds(p, if weak then 0.5 else 1.0, false, weak)
    case AdaptiveEngine =>
      !p.moveBe && !p.profitLock && p.runner == (if side.Buy? then BuyRunner(s, p) else SellRunner(s, p))
  }

  // ---- The scores of the adaptive policy, sign by sign ----

  ghost function Points(sign: bool, points: int): int {
    if sign then points else 0
  }

  /** The whole position runs on strong evidence, half on fair evidence, none on weak evidence. */
  ghost function RunnerFor(score: int, strong: int): real {
    if score >= strong then 1.0 else if score >= 2 then 0.5 else 0.0
  }

  ghost function Obstacle(e: Evidence): real {
    if e.executionFirstObstacleR != 0.0 then e.executionFirstObstacleR else e.firstObstacleR
  }

  ghost function BuyRunner(s: Signal, p: Plan): real {
    var e := s.evidence;
    var room := Obstacle(e);
    var far := if room > 0.0 then Reach(s, p.tp2) > 3.0 * room * StopDistance(s) else true;
    var near := room > 0.0 && Reach(s, p.tp2) <= 2.0 * room * StopDistance(s);
    RunnerFor(
      Points(room >= 1.0, 3) + Points(room >= 1.5, 1) - 2 + Points(near, 1) - Points(far, 2)
      + Points(e.confirmation.Momentum?, 1) + Points(e.strongM5Pattern, 1) + Points(e.h1TrendAtr >= 2.0, 1)
      + Points(e.m5AtrExpansion >= 1.0, 1) + Points(e.retestCount >= 2, 1), 5)
  }

  ghost function SellRunner(s: Signal, p: Plan): real {
    var e := s.evidence;
    var far := Reach(s, p.tp2) > 3.0 * Reach(s, p.tp1);
    var near := Reach(s, p.tp2) <= 2.0 * Reach(s, p.tp1);
    RunnerFor(
      Points(e.m5Rejections >= 2, 2) + Points(e.m5Touches >= 2, 1) + Points(e.m1Touches >= 2, 1)
      + Points(near, 1) - Points(far, 1) + Points(e.continuationThroughSupport, 1)
      - Points(e.targetCrossesSupport, 1) - Points(e.targetCappedAtSupport, 1), 4)
  }

  // ---- Ratios ----

  lemma RatioOfReaches(a: real, b: real, d: real, f: real)
    requires a > 0.0 && d > 0.0
    ensures (b / d) / (a / d) >= f <==> b >= f * a
    ensures (b / d) / (a / d) <= f <==> b <= f * a
  {
    assert (b / d) / (a / d) == b / a;
    var q := b / a;
    assert q * a == b;
    if q >= f { assert (q - f) * a >= 0.0; } else { assert (f - q) * a > 0.0; }
    if q <= f { assert (f - q) * a >= 0.0; } else { assert (q - f) * a > 0.0; }
  }

  lemma ShareOf(a: real, d: real, f: real)
    requires d > 0.0
    ensures a / d >= f <==> a >= f * d
    ensures a / d <= f <==> a <= f * d
  {
    var q := a / d;
    assert q * d == a;
    if q >= f { assert (q - f) * d >= 0.0; } else { assert (f - q) * d > 0.0; }
    if q <= f { assert (f - q) * d >= 0.0; } else { assert (q - f) * d > 0.0; }
  }

  // ---- The plan of a signal ----

  /** A plan takes side, entry and stop as recorded, and the two recorded targets with the nearer one first. */
  ghost predicate TakesTheRecordedPrices(side: Side, s: Signal, p: Plan) {
    && p.side == side && p.entry == s.entry && p.stop == s.stop
    && ((p.tp1 == s.first && p.tp2 == s.second) || (p.tp1 == s.second && p.tp2 == s.first))
    && Reach(s, p.tp1) < Reach(s, p.tp2)
  }

  /** Two different targets beyond the entry, and a stop away from it. */
  ghost predicate Usable(side: Side, s: Signal) {
    && s.first != s.second && s.stop != s.entry
    && (if side.Buy? then s.first > s.entry && s.second > s.entry else s.first < s.entry && s.second < s.entry)
  }

  lemma PlansTakeTheRecordedPrices(policy: Policy, side: Side, s: Signal, riskAtrLimit: real)
    ensures var p := PlanOf(policy, side, s, riskAtrLimit);
            && (p.Some? <==> Usable(side, s)) && (p.Some? ==> TakesTheRecordedPrices(side, s, p.value))
  {
  }

  lemma WeakRangeIsPartial(s: Signal, p: Plan, side: Side, riskAtrLimit: real)
    requires Geometry(side, s) == Some(p)
    ensures EnginePartialRunnerFraction(side, s, TpR(p, p.tp1), TpR(p, p.tp2), riskAtrLimit)
         == if IsWeakRange(side, s, p, riskAtrLimit) then 0.5 else 1.0
  {
    var d := Risk(p);
    ShareOf(Reach(s, p.tp1), d, 0.75);
    ShareOf(Reach(s, p.tp1), d, 1.0);
    RatioOfReaches(Reach(s, p.tp1), Reach(s, p.tp2), d, 2.0);
    if s.evidence.m5Atr > 0.0 {
      ShareOf(d, s.evidence.m5Atr, riskAtrLimit);
    }
  }

  lemma BreakEvenIsWanted(s: Signal, p: Plan, side: Side)
    requires Geometry(side, s) == Some(p)
    ensures EngineShouldMoveBe(side, s.evidence, TpR(p, p.tp1), TpR(p, p.tp2)) <==> WantsBreakEven(side, s, p)
  {
    RatioOfReaches(Reach(s, p.tp1), Reach(s, p.tp2), Risk(p), 2.0);
    RatioOfReaches(Reach(s, p.tp1), Reach(s, p.tp2), Risk(p), 1.5);
  }

  lemma RoomRatio(reach: real, d: real, room: real, f: real)
    requires d > 0.0 && room > 0.0
    ensures (reach / d) / room <= f <==> reach <= f * room * d
  {
    ShareOf(reach / d, room, f);
    ShareOf(reach, d, f * room);
  }

  lemma BuyScores(s: Signal, p: Plan)
    requires Geometry(Buy, s) == Some(p)
    ensures AdaptiveRunnerFraction(Buy, s.evidence, TpR(p, p.tp1), TpR(p, p.tp2)) == BuyRunner(s, p)
  {
    var room := Obstacle(s.evidence);
    if room > 0.0 {
      RoomRatio(Reach(s, p.tp2), Risk(p), room, 2.0);
      RoomRatio(Reach(s, p.tp2), Risk(p), room, 3.0);
    }
  }

  lemma SellScores(s: Signal, p: Plan)
    requires Geometry(Sell, s) == Some(p)
    ensures AdaptiveRunnerFraction(Sell, s.evidence, TpR(p, p.tp1), TpR(p, p.tp2)) == SellRunner(s, p)
  {
    RatioOfReaches(Reach(s, p.tp1), Reach(s, p.tp2), Risk(p), 2.0);
    RatioOfReaches(Reach(s, p.tp1), Reach(s, p.tp2), Risk(p), 3.0);
  }

  /** Every plan of a report is the one that the name of its policy promises. */
  lemma PoliciesDoWhatTheySay(policy: Policy, side: Side, s: Signal, riskAtrLimit: real)
    ensures var p := PlanOf(policy, side, s, riskAtrLimit);
            p.Some? ==> DoesWhatItSays(policy, side, s, p.value, riskAtrLimit)
  {
    var g := Geometry(side, s);
    if g.Some? {
      WeakRangeIsPartial(s, g.value, side, riskAtrLimit);
      BreakEvenIsWanted(s, g.value, side);
      if side.Buy? {
        BuyScores(s, g.value);
      } else {
        SellScores(s, g.value);
      }
    }
  }
}
