/** Expansion of a dual take-profit outcome into the broker positions that carry it out. */
module Legs {
  import opened Prelude
  import opened Bars
  import DualTp
  import Theorems = DualTpTheorems

  datatype Leg = Full | PartialFallbackFullRunner | Tp1Unfilled | Tp1 | Runner

  datatype Id = Id(side: Side, openedAt: int, entry: real, leg: Leg)

  datatype Position = Position(
    id: Id, lot: real, closedAt: int, exitPrice: real, outcomeR: real,
    grossProfit: real, entryCost: real, exitCost: real, closeProfit: real, profit: real, margin: real)

  /** One recorded outcome of a replay report. */
  datatype Outcome = Outcome(
    openedAt: int, closedAt: int, entry: real, stop: real, outcomeR: real,
    tp1R: real, tp1Fraction: real, runnerFraction: real, tp1Taken: bool, tp1TakenAt: Option<int>)

  /** Symbol metadata and the two broker calculators; a zero step or minimum falls back as in the source. */
  datatype Broker = Broker(
    contractSize: real, volumeStep: real, volumeMin: real,
    profit: (Side, real, real, real) -> real, margin: (Side, real, real) -> real)

  datatype Costs = Costs(roundTripSpread: real, slippagePerSide: real, commissionPerLotSide: real)

  function ExitPrice(o: Outcome, side: Side, outcomeR: real): real {
    var risk := Abs(o.entry - o.stop);
    if side.Buy? then o.entry + outcomeR * risk else o.entry - outcomeR * risk
  }

  function Gross(b: Broker, o: Outcome, side: Side, lot: real, outcomeR: real): real {
    b.profit(side, lot, o.entry, ExitPrice(o, side, outcomeR))
  }

  function EntryCost(b: Broker, c: Costs, lot: real): real {
    (c.roundTripSpread + c.slippagePerSide) * (b.contractSize * lot) + c.commissionPerLotSide * lot
  }

  function ExitCost(b: Broker, c: Costs, lot: real): real {
    c.slippagePerSide * (b.contractSize * lot) + c.commissionPerLotSide * lot
  }

  function PositionOf(b: Broker, c: Costs, o: Outcome, side: Side, lot: real, leg: Leg, outcomeR: real,
      closedAt: int): Position {
    var exitPrice := ExitPrice(o, side, outcomeR);
    var gross := Gross(b, o, side, lot, outcomeR);
    var entryCost, exitCost := EntryCost(b, c, lot), ExitCost(b, c, lot);
    Position(Id(side, o.openedAt, o.entry, leg), lot, closedAt, exitPrice, outcomeR,
             gross, entryCost, exitCost, gross - exitCost, gross - entryCost - exitCost, b.margin(side, lot, o.entry))
  }

  function Step(b: Broker): real {
    if b.volumeStep == 0.0 then 0.01 else b.volumeStep
  }

  function Minimum(b: Broker): real {
    if b.volumeMin == 0.0 then Step(b) else b.volumeMin
  }

  function OnStep(b: Broker, lot: real): real
    requires Step(b) != 0.0
  {
    RoundHalfEven(lot / Step(b)) as real * Step(b)
  }

  predicate IsSplit(o: Outcome) {
    0.0 < o.tp1Fraction < 1.0 && 0.0 < o.runnerFraction < 1.0
  }

  function Share(lot: real, fraction: real): real {
    lot * fraction
  }

  /** The executable volumes of the two legs, when the broker's step and minimum allow the split. */
  function SplitLots(b: Broker, o: Outcome, lot: real): (lots: Option<(real, real)>)
    requires Step(b) != 0.0
    ensures lots.Some? ==>
      && Abs(lots.value.0 - Share(lot, o.tp1Fraction)) < 0.000000001
      && Abs(lots.value.1 - Share(lot, o.runnerFraction)) < 0.000000001
  {
    var tp1, runner := Share(lot, o.tp1Fraction), Share(lot, o.runnerFraction);
    if && tp1 + 0.000000000001 >= Minimum(b)
       && runner + 0.000000000001 >= Minimum(b)
       && Abs(OnStep(b, tp1) - tp1) < 0.000000001
       && Abs(OnStep(b, runner) - runner) < 0.000000001
    then Some((OnStep(b, tp1), OnStep(b, runner)))
    else None
  }

  /** A volume that the broker takes: at least the minimum, and a whole number of steps up to 1e-9. */
  ghost predicate Executable(b: Broker, lot: real)
    requires Step(b) != 0.0
  {
    lot + 0.000000000001 >= Minimum(b) && exists n: int :: IsNear(n, Step(b), lot, 0.000000001)
  }

  predicate IsNear(n: int, step: real, lot: real, tolerance: real) {
    Abs(n as real * step - lot) < tolerance
  }

  /** The nearest whole number is at least as near once scaled to steps. */
  lemma NearestStep(x: real, n: int, step: real, lot: real, tolerance: real)
    requires step > 0.0 && x * step == lot && IsNear(n, step, lot, tolerance)
    ensures IsNear(RoundHalfEven(x), step, lot, tolerance)
  {
    var r := RoundHalfEven(x);
    assert r == n || n <= r - 1 || r + 1 <= n;
    StepsApart(r, x, step, lot);
    StepsApart(n, x, step, lot);
    ScaledWithin(r as real - x, n as real - x, step, r as real * step - lot, n as real * step - lot);
  }

  lemma TimesOrder(a: real, b: real, step: real, x: real, y: real)
    requires step > 0.0 && a <= b && x == a * step && y == b * step
    ensures x <= y
  {
    assert (b - a) * step >= 0.0;
  }

  lemma TimesOpposite(a: real, step: real, x: real)
    requires x == a * step
    ensures -x == (-a) * step
  {
  }

  lemma ScaledWithin(a: real, b: real, step: real, x: real, y: real)
    requires step > 0.0 && Abs(a) <= Abs(b) && x == a * step && y == b * step
    ensures Abs(x) <= Abs(y)
  {
    TimesOpposite(a, step, x);
    TimesOpposite(b, step, y);
    if b >= 0.0 {
      TimesOrder(a, b, step, x, y);
      TimesOrder(-a, b, step, -x, y);
    } else {
      TimesOrder(a, -b, step, x, -y);
      TimesOrder(-a, -b, step, -x, -y);
    }
  }

  lemma StepsApart(r: int, x: real, step: real, lot: real)
    requires x * step == lot
    ensures (r as real - x) * step == r as real * step - lot
  {
    assert (r as real - x) * step == r as real * step - x * step;
  }

  /** A split is executable exactly when both of its shares are. */
  lemma SplitIsExecutableIff(b: Broker, o: Outcome, lot: real)
    requires Step(b) > 0.0
    ensures SplitLots(b, o, lot).Some? <==>
            Executable(b, Share(lot, o.tp1Fraction)) && Executable(b, Share(lot, o.runnerFraction))
  {
    RoundsToAStep(b, Share(lot, o.tp1Fraction));
    RoundsToAStep(b, Share(lot, o.runnerFraction));
  }

  lemma NearIsClose(n: int, step: real, lot: real, rounded: real, tolerance: real)
    requires rounded == n as real * step
    ensures IsNear(n, step, lot, tolerance) <==> Abs(rounded - lot) < tolerance
  {
  }

  lemma RoundsToAStep(b: Broker, lot: real)
    requires Step(b) > 0.0
    ensures (exists n: int :: IsNear(n, Step(b), lot, 0.000000001)) <==> Abs(OnStep(b, lot) - lot) < 0.000000001
  {
    var x := lot / Step(b);
    assert x * Step(b) == lot;
    NearIsClose(RoundHalfEven(x), Step(b), lot, OnStep(b, lot), 0.000000001);
    if n: int :| IsNear(n, Step(b), lot, 0.000000001) {
      NearestStep(x, n, Step(b), lot, 0.000000001);
    }
  }

  /** What the runner earned, recovered from the mixed result. */
  function RunnerR(o: Outcome): real
    requires o.runnerFraction != 0.0
  {
    (o.outcomeR - o.tp1Fraction * o.tp1R) / o.runnerFraction
  }

  /** The two legs of an executable split; None stands for the ValueError on a filled TP1 without its time. */
  function SplitLegs(b: Broker, c: Costs, o: Outcome, side: Side, tp1Lot: real, runnerLot: real): Option<seq<Position>>
    requires o.runnerFraction != 0.0
  {
    if !o.tp1Taken then
      Some([PositionOf(b, c, o, side, tp1Lot, Tp1Unfilled, o.outcomeR, o.closedAt),
            PositionOf(b, c, o, side, runnerLot, Runner, o.outcomeR, o.closedAt)])
    else if o.tp1TakenAt.None? then None
    else
      Some([PositionOf(b, c, o, side, tp1Lot, Tp1, o.tp1R, o.tp1TakenAt.value),
            PositionOf(b, c, o, side, runnerLot, Runner, RunnerR(o), o.closedAt)])
  }

  function Positions(b: Broker, c: Costs, o: Outcome, side: Side, lot: real): Option<seq<Position>>
    requires Step(b) != 0.0
  {
    if !IsSplit(o) then
      Some([PositionOf(b, c, o, side, lot, Full, o.outcomeR, o.closedAt)])
    else match SplitLots(b, o, lot)
      case None =>
        Some([PositionOf(b, c, o, side, lot, PartialFallbackFullRunner, if o.tp1Taken then RunnerR(o) else o.outcomeR,
          o.closedAt)])
      case Some(lots) => SplitLegs(b, c, o, side, lots.0, lots.1)
  }

  function LotOf(p: Position): real { p.lot }
  function GrossOf(p: Position): real { p.grossProfit }
  function EntryCostOf(p: Position): real { p.entryCost }
  function ExitCostOf(p: Position): real { p.exitCost }
  function ProfitOf(p: Position): real { p.profit }

  /** Legs never share an id, and each settles its gross result less both costs. */
  lemma LegsAreDistinct(b: Broker, c: Costs, o: Outcome, side: Side, lot: real)
    requires Step(b) != 0.0
    ensures var ps := Positions(b, c, o, side, lot);
            ps.Some? ==>
              && (forall i, j :: 0 <= i < j < |ps.value| ==> ps.value[i].id != ps.value[j].id)
              && (forall p :: p in ps.value ==> p.id.openedAt == o.openedAt && p.profit == p.closeProfit - p.entryCost)
  {
  }

  lemma SumOfTwo<T>(a: T, b: T, f: T -> real)
    ensures SumBy([a, b], f) == f(a) + f(b) && SumBy([a], f) == f(a)
  {
    assert [] + [a] == [a] && [a] + [b] == [a, b];
    SumByAppend([], a, f);
    SumByAppend([a], b, f);
  }

  /** The volume of an executable split is kept up to the 1e-9 alignment tolerance of each leg. */
  lemma LotIsKept(b: Broker, o: Outcome, lot: real)
    requires Step(b) != 0.0 && SplitLots(b, o, lot).Some? && o.tp1Fraction + o.runnerFraction == 1.0
    ensures var lots := SplitLots(b, o, lot).value;
            Abs((lots.0 + lots.1) - lot) < 0.000000001 + 0.000000001
  {
    var lots := SplitLots(b, o, lot).value;
    KeptUpToTolerance(lot, o.tp1Fraction, o.runnerFraction, lots.0, lots.1, 0.000000001);
  }

  lemma KeptUpToTolerance(lot: real, t: real, f: real, x: real, y: real, tolerance: real)
    requires t + f == 1.0 && Abs(x - Share(lot, t)) < tolerance && Abs(y - Share(lot, f)) < tolerance
    ensures Abs((x + y) - lot) < tolerance + tolerance
  {
    Distribute(t, f, lot);
    assert Share(lot, t) + Share(lot, f) == lot;
  }

  // ---- Splitting undoes the mixing ----

  /** The broker's profit is linear in volume and price. */
  ghost predicate Linear(b: Broker) {
    forall side, lot, entry, exit ::
      b.profit(side, lot, entry, exit) == (if side.Buy? then exit - entry else entry - exit) * b.contractSize * lot
  }

  /**
   * Execution costs are worse prices: a position nets what the broker pays when the entry is worse by spread and
   * slippage and the exit worse by slippage, less the commission of both sides.
   */
  lemma CostsWorsenThePrices(
      b: Broker, c: Costs, o: Outcome, side: Side, lot: real, leg: Leg, outcomeR: real, closedAt: int)
    requires Linear(b)
    ensures var p := PositionOf(b, c, o, side, lot, leg, outcomeR, closedAt);
            var away := if side.Buy? then 1.0 else -1.0;
            p.profit == b.profit(side, lot, o.entry + away * (c.roundTripSpread + c.slippagePerSide),
                                 p.exitPrice - away * c.slippagePerSide)
                        - 2.0 * (c.commissionPerLotSide * lot)
  {
    var exit, away := ExitPrice(o, side, outcomeR), if side.Buy? then 1.0 else -1.0;
    var entry', exit' := o.entry + away * (c.roundTripSpread + c.slippagePerSide), exit - away * c.slippagePerSide;
    var d := if side.Buy? then exit - o.entry else o.entry - exit;
    var d' := if side.Buy? then exit' - entry' else entry' - exit';
    assert b.profit(side, lot, o.entry, exit) == d * b.contractSize * lot;
    assert b.profit(side, lot, entry', exit') == d' * b.contractSize * lot;
    assert d' == d - (c.roundTripSpread + c.slippagePerSide) - c.slippagePerSide;
    SpreadTheCosts(d, c.roundTripSpread + c.slippagePerSide, c.slippagePerSide, b.contractSize, lot);
  }

  lemma SpreadTheCosts(d: real, x: real, y: real, size: real, lot: real)
    ensures (d - x - y) * size * lot == d * size * lot - x * (size * lot) - y * (size * lot)
  {
    assert (d - x - y) * size * lot == (d - x - y) * (size * lot);
    assert (d - x - y) * (size * lot) == d * (size * lot) - x * (size * lot) - y * (size * lot);
  }

  lemma GrossOfR(b: Broker, o: Outcome, side: Side, lot: real, r: real)
    requires Linear(b)
    ensures Gross(b, o, side, lot, r) == (Abs(o.entry - o.stop) * b.contractSize) * (lot * r)
  {
    var risk, k := Abs(o.entry - o.stop), b.contractSize;
    assert (r * risk) * k * lot == (risk * k) * (lot * r);
  }

  lemma Recombine(g1: real, g2: real, g: real, lot: real, t: real, f: real, a: real, x: real, total: real, unit: real)
    requires f > 0.0 && x == (total - t * a) / f
    requires g1 == unit * ((lot * t) * a) && g2 == unit * ((lot * f) * x) && g == unit * (lot * total)
    ensures g1 + g2 == g
  {
    assert f * x == total - t * a;
    assert (lot * t) * a == lot * (t * a);
    assert (lot * f) * x == lot * (f * x);
    assert lot * (t * a) + lot * (total - t * a) == lot * total;
    assert unit * (lot * (t * a)) + unit * (lot * (total - t * a)) == unit * (lot * total);
  }

  lemma CostsAreAdditive(b: Broker, c: Costs, x: real, y: real, lot: real)
    requires x + y == lot
    ensures EntryCost(b, c, x) + EntryCost(b, c, y) == EntryCost(b, c, lot)
    ensures ExitCost(b, c, x) + ExitCost(b, c, y) == ExitCost(b, c, lot)
  {
  }

  /**
   * Two legs at the exact shares of a lot: volume, gross result and costs of one full position at the mixed
   * outcome.
   */
  lemma SharesSumToTheFullPosition(b: Broker, c: Costs, o: Outcome, side: Side, lot: real)
    requires Linear(b) && o.tp1Fraction + o.runnerFraction == 1.0 && o.runnerFraction > 0.0
    requires SplitLegs(b, c, o, side, lot * o.tp1Fraction, lot * o.runnerFraction).Some?
    ensures var ps := SplitLegs(b, c, o, side, lot * o.tp1Fraction, lot * o.runnerFraction).value;
            SumsTo(ps, PositionOf(b, c, o, side, lot, Full, o.outcomeR, o.closedAt))
  {
    var ps := SplitLegs(b, c, o, side, lot * o.tp1Fraction, lot * o.runnerFraction).value;
    Distribute(o.tp1Fraction, o.runnerFraction, lot);
    CostsAreAdditive(b, c, lot * o.tp1Fraction, lot * o.runnerFraction, lot);
    GrossIsShared(b, o, side, lot);
    GrossIsAdditive(b, o, side, lot * o.tp1Fraction, lot * o.runnerFraction, lot);
    PairSums(ps[0], ps[1], PositionOf(b, c, o, side, lot, Full, o.outcomeR, o.closedAt));
    assert ps == [ps[0], ps[1]];
  }

  ghost predicate SumsTo(ps: seq<Position>, full: Position) {
    && SumBy(ps, LotOf) == full.lot
    && SumBy(ps, GrossOf) == full.grossProfit
    && SumBy(ps, EntryCostOf) == full.entryCost && SumBy(ps, ExitCostOf) == full.exitCost
    && SumBy(ps, ProfitOf) == full.profit
  }

  ghost predicate Nets(p: Position) {
    p.profit == p.grossProfit - p.entryCost - p.exitCost
  }

  lemma PairSums(p: Position, q: Position, full: Position)
    requires p.lot + q.lot == full.lot && p.grossProfit + q.grossProfit == full.grossProfit
    requires p.entryCost + q.entryCost == full.entryCost && p.exitCost + q.exitCost == full.exitCost
    requires Nets(p) && Nets(q) && Nets(full)
    ensures SumsTo([p, q], full)
  {
    SumOfTwo(p, q, LotOf);
    SumOfTwo(p, q, GrossOf);
    SumOfTwo(p, q, EntryCostOf);
    SumOfTwo(p, q, ExitCostOf);
    SumOfTwo(p, q, ProfitOf);
  }

  /** Exactly aligned legs of a trade add up to the full position. */
  lemma LegsSumToTheFullPosition(b: Broker, c: Costs, o: Outcome, side: Side, lot: real)
    requires Step(b) != 0.0 && Linear(b) && IsSplit(o) && o.tp1Fraction + o.runnerFraction == 1.0
    ensures SplitLots(b, o, lot) == Some((lot * o.tp1Fraction, lot * o.runnerFraction)) ==>
      var ps := Positions(b, c, o, side, lot);
      && (ps.None? <==> o.tp1Taken && o.tp1TakenAt.None?)
      && (ps.Some? ==> SumsTo(ps.value, PositionOf(b, c, o, side, lot, Full, o.outcomeR, o.closedAt)))
  {
    if !(o.tp1Taken && o.tp1TakenAt.None?) {
      SharesSumToTheFullPosition(b, c, o, side, lot);
    }
  }

  /** The TP1 leg at its target and the runner at the recovered R earn the mixed result of the whole lot. */
  lemma GrossIsShared(b: Broker, o: Outcome, side: Side, lot: real)
    requires Linear(b) && o.tp1Fraction + o.runnerFraction == 1.0 && o.runnerFraction > 0.0
    ensures Gross(b, o, side, lot * o.tp1Fraction, o.tp1R) + Gross(b, o, side, lot * o.runnerFraction, RunnerR(o))
         == Gross(b, o, side, lot, o.outcomeR)
  {
    var unit := Abs(o.entry - o.stop) * b.contractSize;
    var x, y, r := lot * o.tp1Fraction, lot * o.runnerFraction, RunnerR(o);
    GrossOfR(b, o, side, lot, o.outcomeR);
    GrossOfR(b, o, side, x, o.tp1R);
    GrossOfR(b, o, side, y, r);
    Recombine(Gross(b, o, side, x, o.tp1R), Gross(b, o, side, y, r), Gross(b, o, side, lot, o.outcomeR),
              lot, o.tp1Fraction, o.runnerFraction, o.tp1R, r, o.outcomeR, unit);
  }

  lemma GrossIsAdditive(b: Broker, o: Outcome, side: Side, x: real, y: real, lot: real)
    requires Linear(b) && x + y == lot
    ensures Gross(b, o, side, x, o.outcomeR) + Gross(b, o, side, y, o.outcomeR) == Gross(b, o, side, lot, o.outcomeR)
  {
    GrossOfR(b, o, side, lot, o.outcomeR);
    GrossOfR(b, o, side, x, o.outcomeR);
    GrossOfR(b, o, side, y, o.outcomeR);
    SameR(Gross(b, o, side, x, o.outcomeR), Gross(b, o, side, y, o.outcomeR), Gross(b, o, side, lot, o.outcomeR),
          Abs(o.entry - o.stop) * b.contractSize, x, y, lot, o.outcomeR);
  }

  lemma SameR(g1: real, g2: real, g: real, unit: real, x: real, y: real, lot: real, r: real)
    requires x + y == lot && g1 == unit * (x * r) && g2 == unit * (y * r) && g == unit * (lot * r)
    ensures g1 + g2 == g
  {
    assert x * r + y * r == lot * r;
    assert unit * (x * r) + unit * (y * r) == unit * (x * r + y * r);
  }

  // ---- What each leg is ----

  /** A position of one outcome: its identity, its price at `r` times the recorded risk, its margin and its close. */
  ghost predicate Carries(p: Position, b: Broker, o: Outcome, side: Side, leg: Leg, r: real, at: int) {
    && p.id == Id(side, o.openedAt, o.entry, leg) && p.closedAt == at && p.outcomeR == r
    && p.margin == b.margin(side, p.lot, o.entry)
    && (side == Buy ==> p.exitPrice - o.entry == r * Abs(o.entry - o.stop))
    && (side == Sell ==> o.entry - p.exitPrice == r * Abs(o.entry - o.stop))
  }

  /** The runner's result is what is missing from the mixed one. */
  predicate IsRunnerR(o: Outcome, r: real) {
    o.tp1Fraction * o.tp1R + o.runnerFraction * r == o.outcomeR
  }

  lemma RunnerRIsTheRest(o: Outcome)
    requires o.runnerFraction > 0.0
    ensures IsRunnerR(o, RunnerR(o))
  {
    assert o.runnerFraction * RunnerR(o) == o.outcomeR - o.tp1Fraction * o.tp1R;
  }

  /** Without a split one position takes the whole lot; a split that cannot be executed leaves it to the runner. */
  lemma WholePositionsAre(b: Broker, c: Costs, o: Outcome, side: Side, lot: real)
    requires Step(b) != 0.0 && (!IsSplit(o) || SplitLots(b, o, lot).None?)
    ensures var ps := Positions(b, c, o, side, lot);
            && ps.Some? && |ps.value| == 1 && ps.value[0].lot == lot
            && var p := ps.value[0];
               && Carries(p, b, o, side, if IsSplit(o) then PartialFallbackFullRunner else Full, p.outcomeR, o.closedAt)
               && (if IsSplit(o) && o.tp1Taken then IsRunnerR(o, p.outcomeR) else p.outcomeR == o.outcomeR)
  {
    if IsSplit(o) {
      RunnerRIsTheRest(o);
    }
  }

  /** The legs of a split: TP1 at its own price and time once filled, and the runner with the rest at the close. */
  ghost predicate AreLegs(ps: seq<Position>, b: Broker, o: Outcome, side: Side) {
    && |ps| == 2
    && Carries(ps[1], b, o, side, Runner, ps[1].outcomeR, o.closedAt)
    && (if o.tp1Taken then
          && o.tp1TakenAt.Some? && Carries(ps[0], b, o, side, Tp1, o.tp1R, o.tp1TakenAt.value)
          && IsRunnerR(o, ps[1].outcomeR)
        else Carries(ps[0], b, o, side, Tp1Unfilled, o.outcomeR, o.closedAt) && ps[1].outcomeR == o.outcomeR)
  }

  lemma PositionCarries(b: Broker, c: Costs, o: Outcome, side: Side, lot: real, leg: Leg, r: real, at: int)
    ensures Carries(PositionOf(b, c, o, side, lot, leg, r, at), b, o, side, leg, r, at)
  {
  }

  lemma SplitLegsAre(b: Broker, c: Costs, o: Outcome, side: Side, tp1Lot: real, runnerLot: real)
    requires o.runnerFraction > 0.0
    ensures var ps := SplitLegs(b, c, o, side, tp1Lot, runnerLot);
            && (ps.None? <==> o.tp1Taken && o.tp1TakenAt.None?)
            && (ps.Some? ==> AreLegs(ps.value, b, o, side) && ps.value[0].lot == tp1Lot && ps.value[1].lot == runnerLot)
  {
    RunnerRIsTheRest(o);
    if !o.tp1Taken {
      PositionCarries(b, c, o, side, tp1Lot, Tp1Unfilled, o.outcomeR, o.closedAt);
      PositionCarries(b, c, o, side, runnerLot, Runner, o.outcomeR, o.closedAt);
    } else if o.tp1TakenAt.Some? {
      PositionCarries(b, c, o, side, tp1Lot, Tp1, o.tp1R, o.tp1TakenAt.value);
      PositionCarries(b, c, o, side, runnerLot, Runner, RunnerR(o), o.closedAt);
    }
  }

  lemma SplitPositionsAre(b: Broker, c: Costs, o: Outcome, side: Side, lot: real)
    requires Step(b) != 0.0 && IsSplit(o) && SplitLots(b, o, lot).Some?
    ensures var ps := Positions(b, c, o, side, lot);
            && (ps.None? <==> o.tp1Taken && o.tp1TakenAt.None?)
            && (ps.Some? ==>
                  && AreLegs(ps.value, b, o, side)
                  && Abs(ps.value[0].lot - Share(lot, o.tp1Fraction)) < 0.000000001
                  && Abs(ps.value[1].lot - Share(lot, o.runnerFraction)) < 0.000000001)
  {
    var lots := SplitLots(b, o, lot).value;
    SplitLegsAre(b, c, o, side, lots.0, lots.1);
  }

  /** The report item that the dual replay writes for an executed trade. */
  function Report(e: DualTp.Executed): Outcome
    requires DualTp.Valid(e.plan)
  {
    Outcome(e.openedAt, e.exit.closedAt, e.plan.entry, e.plan.stop, e.exit.outcomeR,
            DualTp.TpR(e.plan, e.plan.tp1), 1.0 - e.plan.runner, e.plan.runner, e.exit.tp1TakenAt.Some?,
              e.exit.tp1TakenAt)
  }

  lemma Unmix(t: real, f: real, a: real, x: real)
    requires f > 0.0
    ensures (t * a + f * x - t * a) / f == x
  {
    assert (f * x) / f == x;
  }

  /**
   * For a split trade that keeps its stop, the TP1 leg is the FULL_TP1 trade and the runner leg is the
   * FULL_TP2 trade: same result in R, same closing time.
   */
  lemma LegsAreTheTwoFullTrades(
      p: DualTp.Plan, bars: seq<Bar>, openedAt: int, end: int, b: Broker, c: Costs, lot: real)
    requires Theorems.KeepsStop(p) && 0.0 < p.runner < 1.0 && Step(b) != 0.0
    ensures var o := Report(DualTp.On(p, bars, openedAt, end));
            o.tp1Taken && SplitLots(b, o, lot).Some? ==>
            var full1, full2 := DualTp.On(p.(runner := 0.0), bars, openedAt, end),
              DualTp.On(p.(runner := 1.0), bars, openedAt, end);
            var ps := Positions(b, c, o, p.side, lot);
            && ps.Some? && |ps.value| == 2
            && ps.value[0].id.leg == Tp1 && ps.value[1].id.leg == Runner
            && ps.value[1].outcomeR == full2.exit.outcomeR && ps.value[1].closedAt == full2.exit.closedAt
            && ps.value[0].outcomeR == DualTp.TpR(p, p.tp1) && ps.value[0].closedAt == full1.exit.closedAt
  {
    var i := StartIndex(bars, openedAt);
    Theorems.SplitPathIsConvex(p, bars, i, end, DualTp.Start(p));
    Theorems.FilledSplitIsMixed(p, bars, i, end, DualTp.Start(p));
    var o := Report(DualTp.On(p, bars, openedAt, end));
    if o.tp1Taken {
      RunnerRecovers(p, o, DualTp.Path(p.(runner := 1.0), bars, i, end, DualTp.Start(p)).outcomeR);
    }
  }

  lemma RunnerRecovers(p: DualTp.Plan, o: Outcome, x: real)
    requires DualTp.Valid(p) && p.runner > 0.0 && o.tp1Fraction == 1.0 - p.runner && o.runnerFraction == p.runner
    requires o.tp1R == DualTp.TpR(p, p.tp1) && o.outcomeR == DualTp.Mixed(p, x)
    ensures RunnerR(o) == x
  {
    Unmix(1.0 - p.runner, p.runner, DualTp.TpR(p, p.tp1), x);
  }
}
