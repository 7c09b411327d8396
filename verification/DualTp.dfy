/** The dual take-profit replay: policies, the bar-by-bar trade path and the replay of a whole report. */
module DualTp {
  import opened Prelude
  import opened Bars
  import opened Schedule
  import Reports

  datatype Policy =
    | FullTp2 | FullTp1
    | SplitKeepStop | SplitBeAfterTp1 | SplitProfitLockAfterTp1
    | FullTp2BeAfterTp1 | EngineBeAfterTp1
    | EnginePartialKeepStop | EnginePartialBe | EnginePartialProfitLock
    | AdaptiveEngine

  datatype Confirmation = Range | Momentum | OtherConfirmation

  /** The engine's evidence recorded with a signal; absent numbers stand for the source's defaults. */
  datatype Evidence = Evidence(
    executionFirstObstacleR: real,
    firstObstacleR: real,
    confirmation: Confirmation,
    strongM5Pattern: bool,
    h1TrendAtr: real,
    m5AtrExpansion: real,
    m5Atr: real,
    retestCount: int,
    m5Rejections: int,
    m5Touches: int,
    m1Touches: int,
    targetCrossesSupport: bool,
    continuationThroughSupport: bool,
    targetCappedAtSupport: bool)

  datatype Signal = Signal(openedAt: int, entry: real, stop: real, first: real, second: real, evidence: Evidence)

  /** A trade as decided at entry. */
  datatype Plan = Plan(
    side: Side, entry: real, stop: real, tp1: real, tp2: real, runner: real, moveBe: bool, profitLock: bool)

  datatype Result = AmbiguousSameBar | StopBeforeTp1 | Tp1 | Tp2 | AmbiguousAfterTp1 | StopAfterTp1 | EndOfTest

  datatype Exit = Exit(result: Result, closedAt: int, outcomeR: real, tp1TakenAt: Option<int>, mfe: real, mae: real)

  const PROFIT_LOCK_RETAINED_FRACTION := 0.25

  // ---- R arithmetic of a plan ----

  function Risk(p: Plan): real {
    Abs(p.entry - p.stop)
  }

  ghost predicate Valid(p: Plan) {
    && Risk(p) > 0.0
    && (if p.side.Buy? then p.entry < p.tp1 < p.tp2 else p.tp2 < p.tp1 < p.entry)
    && 0.0 <= p.runner <= 1.0
    && (p.profitLock ==> 0.0 < p.runner < 1.0)
  }

  function TpR(p: Plan, price: real): real
    requires Risk(p) > 0.0
  {
    Abs(price - p.entry) / Risk(p)
  }

  /** Signed result of leaving the whole position at `price`, in units of the initial risk. */
  function RAt(p: Plan, price: real): real
    requires Risk(p) > 0.0
  {
    if p.side.Buy? then (price - p.entry) / Risk(p) else (p.entry - price) / Risk(p)
  }

  // ---- Policies ----

  function TargetRatio(tp1R: real, tp2R: real): real {
    if tp1R > 0.0 then tp2R / tp1R else 99.0
  }

  function AdaptiveRunnerFraction(side: Side, e: Evidence, tp1R: real, tp2R: real): real {
    if side.Buy? then
      var obstacle := if e.executionFirstObstacleR != 0.0 then e.executionFirstObstacleR else e.firstObstacleR;
      var ratio := if obstacle > 0.0 then tp2R / obstacle else 99.0;
      var score :=
        (if obstacle >= 1.5 then 2 else if obstacle >= 1.0 then 1 else -2)
        + (if ratio <= 2.0 then 1 else if ratio > 3.0 then -2 else 0)
        + (if e.confirmation.Momentum? then 1 else 0)
        + (if e.strongM5Pattern then 1 else 0)
        + (if e.h1TrendAtr >= 2.0 then 1 else 0)
        + (if e.m5AtrExpansion >= 1.0 then 1 else 0)
        + (if e.retestCount >= 2 then 1 else 0);
      if score >= 5 then 1.0 else if score >= 2 then 0.5 else 0.0
    else
      var ratio := TargetRatio(tp1R, tp2R);
      var score :=
        (if e.m5Rejections >= 2 then 2 else 0)
        + (if e.m5Touches >= 2 then 1 else 0)
        + (if e.m1Touches >= 2 then 1 else 0)
        + (if ratio <= 2.0 then 1 else if ratio > 3.0 then -1 else 0)
        + (if e.targetCrossesSupport then -1 else 0)
        + (if e.continuationThroughSupport then 1 else 0)
        + (if e.targetCappedAtSupport then -1 else 0);
      if score >= 4 then 1.0 else if score >= 2 then 0.5 else 0.0
  }

  function EnginePartialRunnerFraction(side: Side, s: Signal, tp1R: real, tp2R: real, riskAtrLimit: real): real {
    var riskAtr := if s.evidence.m5Atr > 0.0 then Abs(s.entry - s.stop) / s.evidence.m5Atr else 99.0;
    if && side.Buy? && s.evidence.confirmation.Range?
       && 0.75 <= tp1R < 1.0
       && TargetRatio(tp1R, tp2R) >= 2.0
       && riskAtr < riskAtrLimit
    then 0.5 else 1.0
  }

  function PolicyRunnerFraction(policy: Policy, side: Side, s: Signal, tp1R: real, tp2R: real,
      riskAtrLimit: real): real {
    match policy
    case FullTp2 | FullTp2BeAfterTp1 | EngineBeAfterTp1 => 1.0
    case FullTp1 => 0.0
    case SplitKeepStop | SplitBeAfterTp1 | SplitProfitLockAfterTp1 => 0.5
    case EnginePartialKeepStop | EnginePartialBe | EnginePartialProfitLock =>
      EnginePartialRunnerFraction(side, s, tp1R, tp2R, riskAtrLimit)
    case AdaptiveEngine => AdaptiveRunnerFraction(side, s.evidence, tp1R, tp2R)
  }

  function EngineShouldMoveBe(side: Side, e: Evidence, tp1R: real, tp2R: real): bool {
    if side.Buy? then
      e.confirmation.Range? && e.executionFirstObstacleR >= 1.0 && TargetRatio(tp1R, tp2R) >= 2.0
    else
      e.m1Touches >= 2 && e.targetCrossesSupport && TargetRatio(tp1R, tp2R) >= 1.5
  }

  function PolicyMovesBe(policy: Policy, side: Side, e: Evidence, tp1R: real, tp2R: real, runner: real): bool {
    match policy
    case SplitBeAfterTp1 | FullTp2BeAfterTp1 => runner > 0.0
    case EngineBeAfterTp1 => runner > 0.0 && EngineShouldMoveBe(side, e, tp1R, tp2R)
    case EnginePartialBe => runner == 0.5
    case _ => false
  }

  function PolicyUsesProfitLock(policy: Policy, runner: real): bool {
    (policy.SplitProfitLockAfterTp1? || policy.EnginePartialProfitLock?) && 0.0 < runner < 1.0
  }

  /** None stands for the two ValueErrors of the source. */
  function ProfitLockRunnerStopR(tp1R: real, tp1Fraction: real, runner: real, retained: real): (r: Option<real>)
    ensures r.Some? <==> 0.0 < runner < 1.0 && 0.0 < retained < 1.0
    ensures r.Some? ==> -1.0 <= r.value <= 0.0
  {
    if !(0.0 < runner < 1.0) || !(0.0 < retained < 1.0) then None
    else
      var realized := tp1Fraction * tp1R;
      Some(Max(-1.0, Min(0.0, (realized * retained - realized) / runner)))
  }

  /** None stands for the ValueError on a fraction that no broker lot split can carry. */
  function AllocationMode(runner: real): Option<Policy> {
    if runner == 0.0 then Some(FullTp1)
    else if runner == 0.5 then Some(SplitKeepStop)
    else if runner == 1.0 then Some(FullTp2)
    else None
  }

  function RunnerStopR(p: Plan): real
    requires Valid(p)
  {
    if p.profitLock then
      ProfitLockRunnerStopR(TpR(p, p.tp1), 1.0 - p.runner, p.runner, PROFIT_LOCK_RETAINED_FRACTION).value
    else if p.moveBe then 0.0 else -1.0
  }

  // ---- The bar-by-bar path ----

  /** What the loop carries from bar to bar. */
  datatype Walk = Walk(activeStop: real, tp1TakenAt: Option<int>, mfe: real, mae: real)

  function Start(p: Plan): Walk {
    Walk(p.stop, None, 0.0, 0.0)
  }

  function StopHit(p: Plan, stop: real, b: Bar): bool {
    if p.side.Buy? then b.low <= stop else b.high >= stop
  }

  function Reaches(p: Plan, price: real, b: Bar): bool {
    if p.side.Buy? then b.high >= price else b.low <= price
  }

  function Excursion(p: Plan, w: Walk, b: Bar): Walk
    requires Risk(p) > 0.0
  {
    var best, worst := if p.side.Buy? then b.high else b.low, if p.side.Buy? then b.low else b.high;
    w.(mfe := Max(w.mfe, RAt(p, best)), mae := Min(w.mae, RAt(p, worst)))
  }

  function Mixed(p: Plan, runnerR: real): real
    requires Risk(p) > 0.0
  {
    (1.0 - p.runner) * TpR(p, p.tp1) + p.runner * runnerR
  }

  function StopAfter(p: Plan, stop: real): real
    requires Valid(p)
  {
    if p.profitLock then
      if p.side.Buy? then p.entry + Risk(p) * RunnerStopR(p) else p.entry - Risk(p) * RunnerStopR(p)
    else if p.moveBe then p.entry else stop
  }

  datatype Step = Done(exit: Exit) | Continue(walk: Walk)

  function OnBar(p: Plan, w0: Walk, b: Bar): Step
    requires Valid(p)
  {
    var w := Excursion(p, w0, b);
    var at := b.time + ONE_MINUTE;
    var stopHit, tp1Hit, tp2Hit := StopHit(p, w.activeStop, b), Reaches(p, p.tp1, b), Reaches(p, p.tp2, b);
    if w.tp1TakenAt.None? then
      if stopHit && tp1Hit then Done(Exit(AmbiguousSameBar, at, -1.0, None, w.mfe, w.mae))
      else if stopHit then Done(Exit(StopBeforeTp1, at, -1.0, None, w.mfe, w.mae))
      else if tp2Hit then Done(Exit(Tp2, at, Mixed(p, TpR(p, p.tp2)), Some(at), w.mfe, w.mae))
      else if tp1Hit then
        if p.runner <= 0.0 then Done(Exit(Tp1, at, TpR(p, p.tp1), Some(at), w.mfe, w.mae))
        else Continue(w.(tp1TakenAt := Some(at), activeStop := StopAfter(p, w.activeStop)))
      else Continue(w)
    else
      if stopHit then
        Done(Exit(if tp2Hit then AmbiguousAfterTp1 else StopAfterTp1, at,
                  Mixed(p, RAt(p, w.activeStop)), w.tp1TakenAt, w.mfe, w.mae))
      else if tp2Hit then Done(Exit(Tp2, at, Mixed(p, TpR(p, p.tp2)), w.tp1TakenAt, w.mfe, w.mae))
      else Continue(w)
  }

  function AtEnd(p: Plan, w: Walk, end: int, lastClose: real): Exit
    requires Valid(p)
  {
    var current := RAt(p, lastClose);
    Exit(EndOfTest, end, if w.tp1TakenAt.Some? then Mixed(p, current) else current, w.tp1TakenAt, w.mfe, w.mae)
  }

  function Path(p: Plan, bars: seq<Bar>, i: nat, end: int, w: Walk): Exit
    requires Valid(p) && i <= |bars|
    decreases |bars| - i
  {
    if i == |bars| || bars[i].time >= end then AtEnd(p, w, end, LastClose(bars, p.entry))
    else match OnBar(p, w, bars[i])
      case Done(exit) => exit
      case Continue(w') => Path(p, bars, i + 1, end, w')
  }

  /** The loop of one trade, with the source's flags and early exits. */
  method ReplayTrade(p: Plan, bars: seq<Bar>, openedAt: int, end: int) returns (exit: Exit)
    requires Valid(p)
    ensures exit == Path(p, bars, StartIndex(bars, openedAt), end, Start(p))
  {
    var activeStop := p.stop;
    var tp1TakenAt: Option<int> := None;
    var result, closedAt, outcomeR := EndOfTest, end, 0.0;
    var mfe, mae := 0.0, 0.0;
    var i := StartIndex(bars, openedAt);
    ghost var first := i;
    ghost var expected := Path(p, bars, first, end, Start(p));
    while i < |bars| && bars[i].time < end && result == EndOfTest
      invariant first <= i <= |bars|
      invariant result == EndOfTest ==>
        closedAt == end && Path(p, bars, i, end, Walk(activeStop, tp1TakenAt, mfe, mae)) == expected
      invariant result != EndOfTest ==> Exit(result, closedAt, outcomeR, tp1TakenAt, mfe, mae) == expected
      decreases |bars| - i, if result == EndOfTest then 1 else 0
    {
      var bar := bars[i];
      var stopHit, tp1Hit, tp2Hit;
      ghost var before := Walk(activeStop, tp1TakenAt, mfe, mae);
      if p.side.Buy? {
        mfe := Max(mfe, RAt(p, bar.high));
        mae := Min(mae, RAt(p, bar.low));
        stopHit, tp1Hit, tp2Hit := bar.low <= activeStop, bar.high >= p.tp1, bar.high >= p.tp2;
      } else {
        mfe := Max(mfe, RAt(p, bar.low));
        mae := Min(mae, RAt(p, bar.high));
        stopHit, tp1Hit, tp2Hit := bar.high >= activeStop, bar.low <= p.tp1, bar.low <= p.tp2;
      }
      assert Walk(activeStop, tp1TakenAt, mfe, mae) == Excursion(p, before, bar);
      assert stopHit == StopHit(p, activeStop, bar) && tp1Hit == Reaches(p, p.tp1, bar)
        && tp2Hit == Reaches(p, p.tp2, bar);
      if tp1TakenAt.None? {
        if stopHit {
          closedAt, outcomeR := bar.time + ONE_MINUTE, -1.0;
          result := if tp1Hit then AmbiguousSameBar else StopBeforeTp1;
        } else if tp2Hit {
          closedAt, result := bar.time + ONE_MINUTE, Tp2;
          outcomeR := Mixed(p, TpR(p, p.tp2));
          tp1TakenAt := Some(closedAt);
        } else if tp1Hit {
          tp1TakenAt := Some(bar.time + ONE_MINUTE);
          if p.runner <= 0.0 {
            closedAt, result, outcomeR := bar.time + ONE_MINUTE, Tp1, TpR(p, p.tp1);
          } else {
            activeStop := StopAfter(p, activeStop);
          }
        }
      } else if stopHit {
        closedAt := bar.time + ONE_MINUTE;
        result := if tp2Hit then AmbiguousAfterTp1 else StopAfterTp1;
        outcomeR := Mixed(p, RAt(p, activeStop));
      } else if tp2Hit {
        closedAt, result := bar.time + ONE_MINUTE, Tp2;
        outcomeR := Mixed(p, TpR(p, p.tp2));
      }
      assert OnBar(p, before, bar) ==
        if result == EndOfTest then Continue(Walk(activeStop, tp1TakenAt, mfe, mae))
        else Done(Exit(result, closedAt, outcomeR, tp1TakenAt, mfe, mae));
      i := i + 1;
    }
    if result == EndOfTest {
      var currentR := RAt(p, LastClose(bars, p.entry));
      outcomeR := if tp1TakenAt.Some? then Mixed(p, currentR) else currentR;
    }
    exit := Exit(result, closedAt, outcomeR, tp1TakenAt, mfe, mae);
  }

  // ---- A whole report ----

  datatype Executed = Executed(openedAt: int, plan: Plan, exit: Exit)

  /** The prices of a signal as an unallocated plan, when they are usable. */
  function Geometry(side: Side, s: Signal): (p: Option<Plan>)
    ensures p.Some? ==> Valid(p.value)
  {
    var tp1 := if side.Buy? then Min(s.first, s.second) else Max(s.first, s.second);
    var tp2 := if side.Buy? then Max(s.first, s.second) else Min(s.first, s.second);
    var p := Plan(side, s.entry, s.stop, tp1, tp2, 1.0, false, false);
    if (if side.Buy? then s.entry < tp1 < tp2 else tp2 < tp1 < s.entry) && Risk(p) > 0.0 then Some(p) else None
  }

  function Allocate(policy: Policy, s: Signal, p: Plan, riskAtrLimit: real): Plan
    requires Risk(p) > 0.0
  {
    var tp1R, tp2R := TpR(p, p.tp1), TpR(p, p.tp2);
    var runner := PolicyRunnerFraction(policy, p.side, s, tp1R, tp2R, riskAtrLimit);
    p.(runner := runner,
       moveBe := PolicyMovesBe(policy, p.side, s.evidence, tp1R, tp2R, runner),
       profitLock := PolicyUsesProfitLock(policy, runner))
  }

  function PlanOf(policy: Policy, side: Side, s: Signal, riskAtrLimit: real): Option<Plan> {
    match Geometry(side, s)
    case None => None
    case Some(p) => Some(Allocate(policy, s, p, riskAtrLimit))
  }

  /** Every policy allocates a fraction that `allocation_mode` accepts, so no ValueError can be raised. */
  lemma PoliciesAreExecutable(policy: Policy, side: Side, s: Signal, riskAtrLimit: real)
    ensures var p := PlanOf(policy, side, s, riskAtrLimit);
            p.Some? ==>
              && Valid(p.value) && AllocationMode(p.value.runner).Some?
              && (p.value.profitLock ==> p.value.runner == 0.5)
  {
  }

  function On(p: Plan, bars: seq<Bar>, openedAt: int, end: int): Executed
    requires Valid(p)
  {
    Executed(openedAt, p, Path(p, bars, StartIndex(bars, openedAt), end, Start(p)))
  }

  function Attempt(policy: Policy, side: Side, riskAtrLimit: real, bars: seq<Bar>, end: int,
      s: Signal): Option<Executed> {
    PoliciesAreExecutable(policy, side, s, riskAtrLimit);
    match PlanOf(policy, side, s, riskAtrLimit)
    case None => None
    case Some(p) => Some(On(p, bars, s.openedAt, end))
  }

  function Attempter(policy: Policy, side: Side, riskAtrLimit: real, bars: seq<Bar>,
      end: int): Signal -> Option<Executed> {
    s => Attempt(policy, side, riskAtrLimit, bars, end, s)
  }

  function Opening(s: Signal): int { s.openedAt }
  function OpenedAt(e: Executed): int { e.openedAt }
  function Closed(e: Executed): int { e.exit.closedAt }
  function OutcomeR(e: Executed): real { e.exit.outcomeR }

  function Tp1Taken(e: Executed): bool { e.exit.tp1TakenAt.Some? }

  /** What a report counts, in the order in which the script lists it. */
  function Flags(): seq<Executed -> bool> {
    [Tp1Taken,
     (e: Executed) => e.exit.result.Tp2?,
     (e: Executed) => e.exit.result.StopBeforeTp1?,
     (e: Executed) => e.exit.result.StopAfterTp1?,
     (e: Executed) => e.plan.runner == 0.0,
     (e: Executed) => e.plan.runner == 0.5,
     (e: Executed) => e.plan.runner == 1.0,
     (e: Executed) => Tp1Taken(e) && 0.0 < 1.0 - e.plan.runner < 1.0,
     (e: Executed) => e.plan.moveBe,
     (e: Executed) => e.plan.profitLock]
  }

  /** The replay of the signals of a report, already ordered by opening time. */
  method ReplayPolicy(
      policy: Policy, side: Side, riskAtrLimit: real, bars: seq<Bar>, start: int, end: int, signals: seq<Signal>)
      returns (book: Book<Executed>, summary: Reports.Summary)
    ensures book == Run(start, signals, Opening, Attempter(policy, side, riskAtrLimit, bars, end), Closed)
    ensures Reports.Summarizes(summary, book.executed, Flags(), OutcomeR, Closed)
  {
    ghost var attempt := Attempter(policy, side, riskAtrLimit, bars, end);
    var unavailableUntil, overlap, invalid := start, 0, 0;
    var replayed: seq<Executed> := [];
    for n := 0 to |signals|
      invariant Book(unavailableUntil, replayed, overlap, invalid) == Run(start, signals[..n], Opening, attempt, Closed)
    {
      var s := signals[n];
      assert signals[..n + 1][..n] == signals[..n];
      if s.openedAt < unavailableUntil {
        overlap := overlap + 1;
        continue;
      }
      var plan := PlanOf(policy, side, s, riskAtrLimit);
      if plan.None? {
        invalid := invalid + 1;
        continue;
      }
      PoliciesAreExecutable(policy, side, s, riskAtrLimit);
      var exit := ReplayTrade(plan.value, bars, s.openedAt, end);
      replayed := replayed + [Executed(s.openedAt, plan.value, exit)];
      unavailableUntil := exit.closedAt;
    }
    assert signals[..|signals|] == signals;
    book := Book(unavailableUntil, replayed, overlap, invalid);
    summary := Reports.Summarize(replayed, Flags(), OutcomeR, Closed);
  }
}
