/** Position sizing: how far account pressure can only shrink a trade, and how tightly the volume fits its budget. */
module RiskSizing {
  import opened Prelude

  datatype Mode = Recommend | Caution | Strict

  datatype Style = Scalping | Intraday | Swing

  datatype InstrumentClass = ForexMajor | Metal | IndexCfd | OtherClass

  datatype Account = Account(equity: real, freeMargin: real, openRiskPct: real, dailyLossPct: real)

  datatype Symbol = Symbol(
    kind: InstrumentClass, riskWeight: real, point: real, tickSize: real, tickValue: real,
    volumeMin: real, volumeMax: real, volumeStep: real, spread: real, stopsLevel: real,
    quoteSession: bool, tradeSession: bool, tradeAllowed: bool,
    volatility: Option<real>, price: Option<real>, contractSize: Option<real>, marginRate: Option<real>)

  datatype Policy = Policy(
    baseRiskPct: real, maxOpenRiskPct: real, dailyLossLimitPct: real, cautionMultiplier: real, strictMultiplier: real,
    cautionSpread: real, strictSpread: real, cautionMargin: real, strictMargin: real,
    smallEquity: real, cautionWeight: real, strictWeight: real, minCapital: real, minRiskCash: real)

  datatype Allocation = FullEquity | PercentEquity(value: real) | FixedCash(value: real)

  datatype Request = Request(
    account: Account, symbol: Symbol, policy: Policy, stopDistance: real, style: Style,
    allocation: Allocation, force: bool, requestedMode: Option<Mode>)

  // ---- Allocation ----

  /** Minimum lot, contract size, margin rate and floor of a class. */
  function Baseline(c: InstrumentClass): (real, real, real, real) {
    match c
    case ForexMajor => (0.01, 100000.0, 0.005, 30.0)
    case Metal => (0.01, 100.0, 0.005, 75.0)
    case IndexCfd => (0.10, 1.0, 0.005, 50.0)
    case OtherClass => (0.01, 1.0, 0.005, 50.0)
  }

  function RecommendedMinimum(c: InstrumentClass, s: Style): real {
    match (c, s)
    case (ForexMajor, Scalping) => 50.0
    case (ForexMajor, Intraday) => 100.0
    case (ForexMajor, Swing) => 150.0
    case (Metal, Scalping) => 150.0
    case (Metal, Intraday) => 250.0
    case (Metal, Swing) => 400.0
    case (IndexCfd, Scalping) => 100.0
    case (IndexCfd, Intraday) => 200.0
    case (IndexCfd, Swing) => 350.0
    case (OtherClass, Scalping) => 100.0
    case (OtherClass, Intraday) => 150.0
    case (OtherClass, Swing) => 250.0
  }

  function MinimumRiskCash(c: InstrumentClass, s: Style): (r: real)
    ensures r > 0.0
  {
    match (c, s)
    case (ForexMajor, Scalping) => 1.0
    case (ForexMajor, Intraday) => 3.0
    case (ForexMajor, Swing) => 6.0
    case (Metal, Scalping) => 3.0
    case (Metal, Intraday) => 10.0
    case (Metal, Swing) => 20.0
    case (IndexCfd, Scalping) => 2.0
    case (IndexCfd, Intraday) => 8.0
    case (IndexCfd, Swing) => 18.0
    case (OtherClass, Scalping) => 2.0
    case (OtherClass, Intraday) => 5.0
    case (OtherClass, Swing) => 10.0
  }

  function MaxRiskPct(s: Style): real {
    match s case Scalping => 2.0 case Intraday => 4.0 case Swing => 5.0
  }

  function Positive(o: Option<real>, default: real): real {
    if o.Some? && o.value > 0.0 then o.value else default
  }

  function HardFloor(s: Symbol): (r: real)
    ensures r >= 30.0
  {
    var (lot, contract, rate, floor) := Baseline(s.kind);
    var minLot := if s.volumeMin > 0.0 then s.volumeMin else lot;
    var margin := Positive(s.price, 0.0) * Positive(s.contractSize, contract) * minLot * Positive(s.marginRate, rate);
    Max(floor, 2.0 * margin)
  }

  datatype AllocationStatus = Rejection | Warning | Fine

  /** The least practical risk exceeds a share of the allocation; an allocation of nothing is always exceeded. */
  predicate RiskExceeds(c: InstrumentClass, s: Style, allocation: real, pct: real) {
    allocation <= 0.0 || MinimumRiskCash(c, s) / allocation * 100.0 > pct
  }

  function EvaluateAllocation(s: Symbol, style: Style, allocation: real): AllocationStatus {
    if allocation < HardFloor(s) || RiskExceeds(s.kind, style, allocation, 2.0 * MaxRiskPct(style)) then Rejection
    else if allocation < RecommendedMinimum(s.kind, style)
      || RiskExceeds(s.kind, style, allocation, MaxRiskPct(style)) then Warning
    else Fine
  }

  function CapitalBase(r: Request): real {
    var equity := Max(r.account.equity, 0.0);
    match r.allocation
    case FullEquity => equity
    case PercentEquity(v) => equity * (Min(Max(v, 0.0), 100.0) / 100.0)
    case FixedCash(v) => Min(Max(v, 0.0), equity)
  }

  // ---- Suitability ----

  function Ratio(a: real, b: real): real {
    if b <= 0.0 then 1.0 else a / b
  }

  function MarginBuffer(a: Account): real {
    if a.equity <= 0.0 then 0.0 else Max(a.freeMargin, 0.0) / a.equity
  }

  function SpreadRatio(s: Symbol): real {
    if s.volatility.None? || s.volatility.value <= 0.0 then 0.0 else s.spread / s.volatility.value
  }

  /** Spread, margin or a used-up allowance reaches its mark. */
  predicate Pressed(r: Request, spread: real, margin: real, mark: real) {
    || SpreadRatio(r.symbol) >= spread
    || MarginBuffer(r.account) <= margin
    || Ratio(r.account.dailyLossPct, r.policy.dailyLossLimitPct) >= mark
    || Ratio(r.account.openRiskPct, r.policy.maxOpenRiskPct) >= mark
  }

  function AssessSuitability(r: Request, capital: real, allocation: AllocationStatus): Mode {
    var p, s := r.policy, r.symbol;
    if r.requestedMode.Some? then r.requestedMode.value
    else if r.force || !s.tradeAllowed || !s.quoteSession || !s.tradeSession then Strict
    else if allocation.Rejection? then Strict
    else if capital < p.minCapital then Strict
    else if capital <= p.smallEquity && s.riskWeight >= p.strictWeight then Strict
    else if Pressed(r, p.strictSpread, p.strictMargin, 0.80) then Strict
    else if capital <= p.smallEquity && s.riskWeight >= p.cautionWeight then Caution
    else if Pressed(r, p.cautionSpread, p.cautionMargin, 0.50) then Caution
    else Recommend
  }

  // ---- Size ----

  function EffectiveRiskPct(p: Policy, m: Mode): real {
    match m
    case Caution => p.baseRiskPct * p.cautionMultiplier
    case Strict => p.baseRiskPct * p.strictMultiplier
    case Recommend => p.baseRiskPct
  }

  /** What is left of an allowance, in cash. */
  function Remaining(capital: real, limitPct: real, usedPct: real): real {
    capital * (Max(limitPct - usedPct, 0.0) / 100.0)
  }

  function Min3(a: real, b: real, c: real): real {
    Min(Min(a, b), c)
  }

  function RiskCashBudget(r: Request, pct: real, capital: real): real {
    Max(Min3(capital * (pct / 100.0),
             Remaining(capital, r.policy.dailyLossLimitPct, r.account.dailyLossPct),
             Remaining(capital, r.policy.maxOpenRiskPct, r.account.openRiskPct)), 0.0)
  }

  function LossPerLot(r: Request): real {
    var s := r.symbol;
    if s.tickSize <= 0.0 || s.tickValue <= 0.0 || s.point <= 0.0 then 0.0
    else r.stopDistance * s.point / s.tickSize * s.tickValue
  }

  const SLACK := 0.000000000001
  const GRAIN := 100000000.0

  /** Python's `round(x, 8)`. */
  function Round8(x: real): real {
    RoundHalfEven(x * GRAIN) as real / GRAIN
  }

  function Clamp(volume: real, max: real): real {
    Min(Max(volume, 0.0), max)
  }

  function Steps(clamped: real, step: real): int
    requires step > 0.0
  {
    ((clamped + SLACK) / step).Floor
  }

  function Lots(n: int, step: real): real {
    n as real * step
  }

  function NormalizeVolume(volume: real, min: real, max: real, step: real): real {
    if step <= 0.0 then 0.0
    else
      Snap(Lots(Steps(Clamp(volume, max), step), step), min)
  }

  /** Too little for the minimum is nothing. */
  function Snap(normalized: real, min: real): real {
    if 0.0 < normalized < min then 0.0 else Round8(normalized)
  }

  datatype Refusal =
    | NoCapital | NoStop | StopTooClose | AllocationRejected | NoBudget | BadTicks | BudgetTooSmall | VolumeTooSmall

  datatype SizeResult = SizeResult(
    refusal: Option<Refusal>, mode: Mode, capital: real, effectiveRiskPct: real, budget: real,
    volume: real, estimatedLoss: real, rawVolume: real, lossPerLot: real)

  function Accepted(s: SizeResult): bool {
    s.refusal.None?
  }

  /** Refusals that do not look at the mode. */
  function EarlyRefusal(r: Request, capital: real, allocation: AllocationStatus): Option<Refusal> {
    if capital <= 0.0 then Some(NoCapital)
    else if r.stopDistance <= 0.0 then Some(NoStop)
    else if r.stopDistance < r.symbol.stopsLevel then Some(StopTooClose)
    else if allocation.Rejection? then Some(AllocationRejected)
    else None
  }

  function LateRefusal(r: Request, budget: real, loss: real, normalized: real): Option<Refusal> {
    if budget <= 0.0 then Some(NoBudget)
    else if loss <= 0.0 then Some(BadTicks)
    else if budget < r.policy.minRiskCash then Some(BudgetTooSmall)
    else if normalized < r.symbol.volumeMin then Some(VolumeTooSmall)
    else None
  }

  function Raw(budget: real, loss: real): real {
    if loss <= 0.0 then 0.0 else budget / loss
  }

  function ComputePositionSize(r: Request): SizeResult {
    SizeWith(r, CapitalBase(r), EvaluateAllocation(r.symbol, r.style, CapitalBase(r)), LossPerLot(r))
  }

  function SizeWith(r: Request, capital: real, allocation: AllocationStatus, loss: real): SizeResult {
    var early := EarlyRefusal(r, capital, allocation);
    if early.Some? then
      SizeResult(early, Strict, if early.value.NoCapital? then 0.0 else capital, 0.0, 0.0, 0.0, 0.0, 0.0, 0.0)
    else
      var mode := AssessSuitability(r, capital, allocation);
      var pct := EffectiveRiskPct(r.policy, mode);
      SizeForBudget(r, mode, capital, pct, RiskCashBudget(r, pct, capital), loss)
  }

  function SizeForBudget(r: Request, mode: Mode, capital: real, pct: real, budget: real, loss: real): SizeResult {
    var raw := Raw(budget, loss);
    var normalized := NormalizeVolume(raw, r.symbol.volumeMin, r.symbol.volumeMax, r.symbol.volumeStep);
    match LateRefusal(r, budget, loss, normalized)
    case None => SizeResult(None, mode, capital, pct, budget, normalized, normalized * loss, raw, loss)
    case Some(why) =>
      SizeResult(Some(why), mode, capital, pct, Max(budget, 0.0), 0.0, 0.0, if why.VolumeTooSmall? then raw else 0.0,
                 if why.NoBudget? || why.BadTicks? then 0.0 else loss)
  }

  // ---- More capital is never worse allocated ----

  function Standing(s: AllocationStatus): nat {
    match s case Rejection => 0 case Warning => 1 case Fine => 2
  }

  lemma ShareShrinks(cash: real, a: real, b: real)
    requires cash > 0.0 && 0.0 < a <= b
    ensures cash / b <= cash / a
  {
    var q := cash / b;
    assert q * b == cash && q > 0.0;
    assert q * a <= q * b;
    assert cash / a >= q * a / a by {
      DivMonotone(q * a, cash, a);
    }
    assert q * a / a == q;
  }

  lemma MoreCapitalIsNeverWorse(s: Symbol, style: Style, a: real, b: real)
    requires a <= b
    ensures Standing(EvaluateAllocation(s, style, a)) <= Standing(EvaluateAllocation(s, style, b))
  {
    if a > 0.0 {
      ShareShrinks(MinimumRiskCash(s.kind, style), a, b);
    }
  }

  // ---- Pressure ----

  function Strictness(m: Mode): nat {
    match m case Recommend => 0 case Caution => 1 case Strict => 2
  }

  /** The second request differs from the first only by more realized loss or more open risk. */
  predicate MorePressed(r: Request, q: Request) {
    && q == r.(account := q.account)
    && q.account == r.account.(openRiskPct := q.account.openRiskPct, dailyLossPct := q.account.dailyLossPct)
    && r.account.openRiskPct <= q.account.openRiskPct && r.account.dailyLossPct <= q.account.dailyLossPct
  }

  lemma RatioIsMonotone(a: real, b: real, d: real)
    requires a <= b
    ensures Ratio(a, d) <= Ratio(b, d)
  {
    if d > 0.0 {
      DivMonotone(a, b, d);
    }
  }

  lemma PressureIsMonotone(r: Request, q: Request, spread: real, margin: real, mark: real)
    requires MorePressed(r, q) && Pressed(r, spread, margin, mark)
    ensures Pressed(q, spread, margin, mark)
  {
    RatioIsMonotone(r.account.dailyLossPct, q.account.dailyLossPct, r.policy.dailyLossLimitPct);
    RatioIsMonotone(r.account.openRiskPct, q.account.openRiskPct, r.policy.maxOpenRiskPct);
  }

  lemma ModeIsMonotone(r: Request, q: Request, capital: real, status: AllocationStatus)
    requires MorePressed(r, q)
    ensures Strictness(AssessSuitability(r, capital, status)) <= Strictness(AssessSuitability(q, capital, status))
  {
    if Pressed(r, r.policy.strictSpread, r.policy.strictMargin, 0.80) {
      PressureIsMonotone(r, q, r.policy.strictSpread, r.policy.strictMargin, 0.80);
    }
    if Pressed(r, r.policy.cautionSpread, r.policy.cautionMargin, 0.50) {
      PressureIsMonotone(r, q, r.policy.cautionSpread, r.policy.cautionMargin, 0.50);
    }
  }

  predicate OrderedMultipliers(p: Policy) {
    0.0 <= p.strictMultiplier <= p.cautionMultiplier <= 1.0
  }

  lemma ScaleMonotone(x: real, a: real, b: real)
    requires x >= 0.0 && a <= b
    ensures x * a <= x * b
  {
  }

  function Multiplier(p: Policy, m: Mode): real {
    match m case Recommend => 1.0 case Caution => p.cautionMultiplier case Strict => p.strictMultiplier
  }

  lemma EffectiveIsScaled(p: Policy, m: Mode)
    ensures EffectiveRiskPct(p, m) == p.baseRiskPct * Multiplier(p, m)
  {
  }

  lemma SignOfProduct(x: real, y: real)
    requires x <= 0.0 <= y
    ensures x * y <= 0.0
  {
  }

  lemma StricterModesRiskLess(p: Policy, m: Mode, n: Mode)
    requires OrderedMultipliers(p) && Strictness(m) <= Strictness(n)
    ensures EffectiveRiskPct(p, n) <= EffectiveRiskPct(p, m)
      || (EffectiveRiskPct(p, n) <= 0.0 && EffectiveRiskPct(p, m) <= 0.0)
  {
    EffectiveIsScaled(p, m);
    EffectiveIsScaled(p, n);
    if p.baseRiskPct >= 0.0 {
      ScaleMonotone(p.baseRiskPct, Multiplier(p, n), Multiplier(p, m));
    } else {
      SignOfProduct(p.baseRiskPct, Multiplier(p, n));
      SignOfProduct(p.baseRiskPct, Multiplier(p, m));
    }
  }

  lemma RemainingIsMonotone(capital: real, limit: real, used: real, more: real)
    requires capital >= 0.0 && used <= more
    ensures Remaining(capital, limit, more) <= Remaining(capital, limit, used)
  {
    ScaleMonotone(capital, Max(limit - more, 0.0) / 100.0, Max(limit - used, 0.0) / 100.0);
  }

  lemma ClippedShareIsMonotone(capital: real, p: real, pq: real)
    requires capital >= 0.0 && (pq <= p || (pq <= 0.0 && p <= 0.0))
    ensures Max(capital * (pq / 100.0), 0.0) <= Max(capital * (p / 100.0), 0.0)
  {
    if pq <= p {
      ScaleMonotone(capital, pq / 100.0, p / 100.0);
    } else {
      ScaleMonotone(capital, pq / 100.0, 0.0);
    }
  }

  lemma ClippedMinIsMonotone(x: real, y: real, z: real, a: real, b: real, c: real)
    requires Max(x, 0.0) <= Max(a, 0.0) && y <= b && z <= c
    ensures Max(Min3(x, y, z), 0.0) <= Max(Min3(a, b, c), 0.0)
  {
  }

  lemma BudgetIsMonotone(r: Request, q: Request, p: real, pq: real, capital: real)
    requires MorePressed(r, q) && capital >= 0.0
    requires pq <= p || (pq <= 0.0 && p <= 0.0)
    ensures RiskCashBudget(q, pq, capital) <= RiskCashBudget(r, p, capital)
  {
    var daily, open := r.policy.dailyLossLimitPct, r.policy.maxOpenRiskPct;
    RemainingIsMonotone(capital, daily, r.account.dailyLossPct, q.account.dailyLossPct);
    RemainingIsMonotone(capital, open, r.account.openRiskPct, q.account.openRiskPct);
    ClippedShareIsMonotone(capital, p, pq);
    ClippedMinIsMonotone(
      capital * (pq / 100.0), Remaining(capital, daily, q.account.dailyLossPct),
      Remaining(capital, open, q.account.openRiskPct),
      capital * (p / 100.0), Remaining(capital, daily, r.account.dailyLossPct),
      Remaining(capital, open, r.account.openRiskPct));
  }

  lemma FloorIsMonotone(a: real, b: real)
    requires a <= b
    ensures a.Floor <= b.Floor
  {
  }

  lemma Round8IsMonotone(a: real, b: real)
    requires a <= b
    ensures Round8(a) <= Round8(b)
  {
    ScaleMonotone(GRAIN, a, b);
    RoundIsMonotone(a * GRAIN, b * GRAIN);
    DivMonotone(RoundHalfEven(a * GRAIN) as real, RoundHalfEven(b * GRAIN) as real, GRAIN);
  }

  lemma StepsAreMonotone(a: real, b: real, step: real)
    requires step > 0.0 && a <= b
    ensures Lots(Steps(a, step), step) <= Lots(Steps(b, step), step)
  {
    DivMonotone(a + SLACK, b + SLACK, step);
    FloorIsMonotone((a + SLACK) / step, (b + SLACK) / step);
    ScaleMonotone(step, Steps(a, step) as real, Steps(b, step) as real);
  }

  lemma SnapIsMonotone(x: real, y: real, min: real)
    requires x <= y
    ensures Snap(x, min) <= Snap(y, min)
  {
    Round8IsMonotone(x, y);
    assert Round8(0.0) == 0.0;
    if x <= 0.0 {
      Round8IsMonotone(x, 0.0);
    }
    if y >= 0.0 {
      Round8IsMonotone(0.0, y);
    }
  }

  lemma NormalizeIsMonotone(a: real, b: real, min: real, max: real, step: real)
    requires a <= b
    ensures NormalizeVolume(a, min, max, step) <= NormalizeVolume(b, min, max, step)
  {
    if step > 0.0 {
      assert Clamp(a, max) <= Clamp(b, max);
      StepsAreMonotone(Clamp(a, max), Clamp(b, max), step);
      SnapIsMonotone(Lots(Steps(Clamp(a, max), step), step), Lots(Steps(Clamp(b, max), step), step), min);
    }
  }

  lemma SizeIsMonotone(r: Request, q: Request, m: Mode, mq: Mode, capital: real, p: real, pq: real, budget: real,
      less: real, loss: real)
    requires MorePressed(r, q) && less <= budget
    ensures var s, t := SizeForBudget(r, m, capital, p, budget, loss), SizeForBudget(q, mq, capital, pq, less, loss);
            Accepted(t) ==> Accepted(s) && t.volume <= s.volume
  {
    if loss > 0.0 {
      DivMonotone(less, budget, loss);
      NormalizeIsMonotone(Raw(less, loss), Raw(budget, loss), r.symbol.volumeMin, r.symbol.volumeMax,
        r.symbol.volumeStep);
    }
  }

  lemma CapitalIsNotNegative(r: Request)
    ensures CapitalBase(r) >= 0.0
  {
    if r.allocation.PercentEquity? {
      ScaleMonotone(Max(r.account.equity, 0.0), 0.0, Min(Max(r.allocation.value, 0.0), 100.0) / 100.0);
    }
  }

  lemma SizeShrinksWithTheMode(r: Request, q: Request, m: Mode, mq: Mode, capital: real, loss: real)
    requires MorePressed(r, q) && OrderedMultipliers(r.policy) && Strictness(m) <= Strictness(mq) && capital >= 0.0
    ensures var p, pq := EffectiveRiskPct(r.policy, m), EffectiveRiskPct(q.policy, mq);
            var s := SizeForBudget(r, m, capital, p, RiskCashBudget(r, p, capital), loss);
            var t := SizeForBudget(q, mq, capital, pq, RiskCashBudget(q, pq, capital), loss);
            Accepted(t) ==> Accepted(s) && t.volume <= s.volume
  {
    StricterModesRiskLess(r.policy, m, mq);
    var p, pq := EffectiveRiskPct(r.policy, m), EffectiveRiskPct(r.policy, mq);
    BudgetIsMonotone(r, q, p, pq, capital);
    SizeIsMonotone(r, q, m, mq, capital, p, pq, RiskCashBudget(r, p, capital), RiskCashBudget(q, pq, capital), loss);
  }

  lemma PressureShrinksTheSize(r: Request, q: Request, capital: real, status: AllocationStatus, loss: real)
    requires MorePressed(r, q) && OrderedMultipliers(r.policy) && capital >= 0.0
    ensures var s, t := SizeWith(r, capital, status, loss), SizeWith(q, capital, status, loss);
            Strictness(s.mode) <= Strictness(t.mode) && (Accepted(t) ==> Accepted(s) && t.volume <= s.volume)
  {
    ModeIsMonotone(r, q, capital, status);
    SizeShrinksWithTheMode(r, q, AssessSuitability(r, capital, status), AssessSuitability(q, capital, status),
      capital, loss);
  }

  lemma SameInputs(r: Request, q: Request)
    requires MorePressed(r, q)
    ensures CapitalBase(q) == CapitalBase(r) && LossPerLot(q) == LossPerLot(r) && q.symbol == r.symbol
    ensures q.style == r.style
  {
  }

  /**
   * More realized loss or open risk never loosens the mode, never turns a refusal around, and never enlarges the
   * volume.
   */
  lemma PressureNeverEnlargesATrade(r: Request, q: Request)
    requires MorePressed(r, q) && OrderedMultipliers(r.policy)
    ensures var s, t := ComputePositionSize(r), ComputePositionSize(q);
            && Strictness(s.mode) <= Strictness(t.mode)
            && (Accepted(t) ==> Accepted(s) && t.volume <= s.volume)
  {
    CapitalIsNotNegative(r);
    SameInputs(r, q);
    PressureShrinksTheSize(r, q, CapitalBase(r), EvaluateAllocation(r.symbol, r.style, CapitalBase(r)), LossPerLot(r));
  }

  /** With a refusal counted as no volume, the volume as a whole is monotone. */
  lemma RefusedVolumeIsZeroAndMonotone(r: Request, q: Request)
    requires MorePressed(r, q) && OrderedMultipliers(r.policy) && r.symbol.volumeMin >= 0.0
    ensures ComputePositionSize(q).volume <= ComputePositionSize(r).volume
  {
    PressureNeverEnlargesATrade(r, q);
  }

  // ---- How well the volume fits ----

  /** The step is a whole number of hundred-millionths, so that the final rounding has nothing to do. */
  predicate OnGrain(step: real) {
    step * GRAIN == (step * GRAIN).Floor as real
  }

  lemma FloorBounds(x: real, step: real)
    requires step > 0.0
    ensures Lots((x / step).Floor, step) <= x < Lots((x / step).Floor + 1, step)
  {
    var q, f := x / step, (x / step).Floor;
    assert q * step == x;
    ScaleMonotone(step, f as real, q);
    Widen(q, (f + 1) as real, step);
  }

  lemma Widen(a: real, b: real, step: real)
    requires step > 0.0 && a < b
    ensures a * step < b * step
  {
    assert (b - a) * step > 0.0;
  }

  lemma Regroup(n: real, step: real, grain: real)
    ensures n * step * grain == n * (step * grain)
  {
  }

  lemma {:induction false} WholeProduct(n: int, k: int)
    ensures n as real * k as real == (n * k) as real
    decreases if n >= 0 then n else -n
  {
    if n != 0 {
      var m := if n > 0 then n - 1 else n + 1;
      WholeProduct(m, k);
      Distribute(m as real, (n - m) as real, k as real);
      assert n * k == m * k + (n - m) * k;
    }
  }

  lemma WholeIsRounded(x: real, n: int)
    requires x * GRAIN == n as real
    ensures Round8(x) == x
  {
    assert RoundHalfEven(x * GRAIN) as real == x * GRAIN;
  }

  lemma WholeStepsAreOnGrain(n: int, step: real)
    requires OnGrain(step)
    ensures Round8(Lots(n, step)) == Lots(n, step)
  {
    var k := (step * GRAIN).Floor;
    Regroup(n as real, step, GRAIN);
    WholeProduct(n, k);
    WholeIsRounded(Lots(n, step), n * k);
  }

  lemma Round8IsClose(x: real)
    ensures -0.000000005 <= Round8(x) - x <= 0.000000005
  {
    var n := RoundHalfEven(x * GRAIN);
    assert Round8(x) - x == (n as real - x * GRAIN) / GRAIN;
  }

  /** A volume of `n` whole steps, the most that fit below the limit. */
  predicate IsLargestFit(volume: real, n: int, limit: real, step: real) {
    volume == Lots(n, step) <= limit + SLACK < Lots(n + 1, step)
  }

  lemma SnapWhole(n: int, step: real, min: real)
    requires OnGrain(step)
    ensures Snap(Lots(n, step), min) == if 0.0 < Lots(n, step) < min then 0.0 else Lots(n, step)
  {
    WholeStepsAreOnGrain(n, step);
  }

  lemma NormalizedVolumeFits(raw: real, min: real, max: real, step: real) returns (n: int)
    requires step > 0.0 && OnGrain(step) && raw > 0.0
    ensures IsLargestFit(Lots(n, step), n, Min(raw, max), step)
    ensures NormalizeVolume(raw, min, max, step) == if 0.0 < Lots(n, step) < min then 0.0 else Lots(n, step)
  {
    var clamped := Clamp(raw, max);
    assert clamped == Min(raw, max);
    n := Steps(clamped, step);
    FloorBounds(clamped + SLACK, step);
    SnapWhole(n, step, min);
  }

  /** For any other step the final rounding moves the volume by half a hundred-millionth at most. */
  lemma RoundingMovesLittle(raw: real, min: real, max: real, step: real, volume: real) returns (n: int)
    requires step > 0.0 && raw > 0.0 && min > 0.0 && volume == NormalizeVolume(raw, min, max, step) && volume >= min
    ensures IsLargestFit(Lots(n, step), n, Min(raw, max), step)
    ensures -0.000000005 <= volume - Lots(n, step) <= 0.000000005
  {
    var clamped := Clamp(raw, max);
    assert clamped == Min(raw, max);
    n := Steps(clamped, step);
    FloorBounds(clamped + SLACK, step);
    Round8IsClose(Lots(n, step));
  }

  lemma LotsAreMonotone(m: int, n: int, step: real)
    requires step > 0.0 && m <= n
    ensures Lots(m, step) <= Lots(n, step)
  {
    Distribute(m as real, (n - m) as real, step);
    assert (n - m) as real * step >= 0.0;
  }

  lemma FewerStepsAreLess(m: int, n: int, step: real)
    requires step > 0.0
    ensures Lots(m, step) < Lots(n + 1, step) ==> Lots(m, step) <= Lots(n, step)
  {
    if m <= n {
      LotsAreMonotone(m, n, step);
    } else {
      LotsAreMonotone(n + 1, m, step);
    }
  }

  /**
   * With a sufficient budget a trade is accepted exactly when some whole number of steps fits between minimum and
   * limit.
   */
  lemma AcceptedIffAStepFits(r: Request, mode: Mode, capital: real, pct: real, budget: real, loss: real)
    requires budget > 0.0 && loss > 0.0 && budget >= r.policy.minRiskCash && r.symbol.volumeMin > 0.0
    requires r.symbol.volumeStep > 0.0 && OnGrain(r.symbol.volumeStep)
    ensures Accepted(SizeForBudget(r, mode, capital, pct, budget, loss)) <==>
            exists m: int ::
              r.symbol.volumeMin <= Lots(m, r.symbol.volumeStep) <= Min(Raw(budget, loss), r.symbol.volumeMax) + SLACK
  {
    StepFits(Raw(budget, loss), r.symbol.volumeMin, r.symbol.volumeMax, r.symbol.volumeStep);
  }

  lemma StepFits(raw: real, min: real, max: real, step: real)
    requires step > 0.0 && OnGrain(step) && raw > 0.0 && min > 0.0
    ensures NormalizeVolume(raw, min, max, step) >= min <==>
            exists m: int :: min <= Lots(m, step) <= Min(raw, max) + SLACK
  {
    var n := NormalizedVolumeFits(raw, min, max, step);
    forall m: int | min <= Lots(m, step) <= Min(raw, max) + SLACK ensures Lots(n, step) >= min {
      FewerStepsAreLess(m, n, step);
    }
  }

  lemma AcceptedParts(r: Request, capital: real, status: AllocationStatus, loss: real, s: SizeResult)
    requires s == SizeWith(r, capital, status, loss) && Accepted(s)
    ensures s.lossPerLot > 0.0 && s.budget > 0.0 && s.rawVolume == s.budget / s.lossPerLot && s.rawVolume > 0.0
    ensures s.volume == NormalizeVolume(s.rawVolume, r.symbol.volumeMin, r.symbol.volumeMax, r.symbol.volumeStep)
    ensures s.volume >= r.symbol.volumeMin && s.estimatedLoss == s.volume * s.lossPerLot
    ensures s.budget == RiskCashBudget(r, s.effectiveRiskPct, s.capital) && s.capital > 0.0
  {
  }

  lemma LossFits(volume: real, budget: real, loss: real)
    requires loss > 0.0 && volume <= budget / loss + SLACK
    ensures volume * loss <= budget + SLACK * loss
  {
    var raw := budget / loss;
    assert raw * loss == budget;
    ScaleMonotone(loss, volume, raw + SLACK);
  }

  lemma VolumeFits(raw: real, min: real, max: real, step: real, volume: real) returns (n: int)
    requires step > 0.0 && OnGrain(step) && raw > 0.0 && min > 0.0
    requires volume == NormalizeVolume(raw, min, max, step) && volume >= min
    ensures IsLargestFit(volume, n, Min(raw, max), step)
  {
    n := NormalizedVolumeFits(raw, min, max, step);
  }

  lemma PartsFit(symbol: Symbol, s: SizeResult) returns (n: int)
    requires s.lossPerLot > 0.0 && s.rawVolume == s.budget / s.lossPerLot && s.rawVolume > 0.0
    requires s.volume == NormalizeVolume(s.rawVolume, symbol.volumeMin, symbol.volumeMax, symbol.volumeStep)
    requires s.volume >= symbol.volumeMin > 0.0 && s.estimatedLoss == s.volume * s.lossPerLot
    requires symbol.volumeStep > 0.0 && OnGrain(symbol.volumeStep)
    ensures IsLargestFit(s.volume, n, Min(s.rawVolume, symbol.volumeMax), symbol.volumeStep)
    ensures s.estimatedLoss <= s.budget + SLACK * s.lossPerLot
  {
    n := VolumeFits(s.rawVolume, symbol.volumeMin, symbol.volumeMax, symbol.volumeStep, s.volume);
    LossFits(s.volume, s.budget, s.lossPerLot);
  }

  /**
   * An accepted volume is the most whole steps that fit, at least the minimum, and its loss stays within the
   * budget.
   */
  lemma AcceptedVolumeIsTheLargestFit(r: Request, s: SizeResult) returns (n: int)
    requires s == ComputePositionSize(r) && Accepted(s) && r.symbol.volumeMin > 0.0
    requires r.symbol.volumeStep > 0.0 && OnGrain(r.symbol.volumeStep)
    ensures IsLargestFit(s.volume, n, Min(s.rawVolume, r.symbol.volumeMax), r.symbol.volumeStep)
    ensures s.volume >= r.symbol.volumeMin
    ensures s.estimatedLoss <= s.budget + SLACK * s.lossPerLot
  {
    AcceptedParts(r, CapitalBase(r), EvaluateAllocation(r.symbol, r.style, CapitalBase(r)), LossPerLot(r), s);
    n := PartsFit(r.symbol, s);
  }

  /** What is left of an allowance, when anything is. */
  function Allowance(capital: real, limitPct: real, usedPct: real): real {
    capital * ((limitPct - usedPct) / 100.0)
  }

  lemma PositiveRemainingIsTheAllowance(capital: real, limitPct: real, usedPct: real)
    requires capital > 0.0 && Remaining(capital, limitPct, usedPct) > 0.0
    ensures Remaining(capital, limitPct, usedPct) == Allowance(capital, limitPct, usedPct)
  {
    assert limitPct - usedPct <= 0.0 ==> Remaining(capital, limitPct, usedPct) == capital * 0.0;
  }

  lemma BudgetFitsTheAllowances(r: Request, pct: real, capital: real, budget: real)
    requires capital > 0.0 && budget == RiskCashBudget(r, pct, capital) && budget > 0.0
    ensures budget <= Allowance(capital, r.policy.dailyLossLimitPct, r.account.dailyLossPct)
    ensures budget <= Allowance(capital, r.policy.maxOpenRiskPct, r.account.openRiskPct)
  {
    PositiveRemainingIsTheAllowance(capital, r.policy.dailyLossLimitPct, r.account.dailyLossPct);
    PositiveRemainingIsTheAllowance(capital, r.policy.maxOpenRiskPct, r.account.openRiskPct);
  }

  /** Adding the trade's loss to what is used already stays within both limits, up to the sizing slack. */
  lemma TradeFitsBothLimits(r: Request, s: SizeResult)
    requires s == ComputePositionSize(r) && Accepted(s) && r.symbol.volumeMin > 0.0
    requires r.symbol.volumeStep > 0.0 && OnGrain(r.symbol.volumeStep)
    ensures s.estimatedLoss
         <= Allowance(s.capital, r.policy.dailyLossLimitPct, r.account.dailyLossPct) + SLACK * s.lossPerLot
    ensures s.estimatedLoss
         <= Allowance(s.capital, r.policy.maxOpenRiskPct, r.account.openRiskPct) + SLACK * s.lossPerLot
  {
    AcceptedParts(r, CapitalBase(r), EvaluateAllocation(r.symbol, r.style, CapitalBase(r)), LossPerLot(r), s);
    var n := AcceptedVolumeIsTheLargestFit(r, s);
    BudgetFitsTheAllowances(r, s.effectiveRiskPct, s.capital, s.budget);
  }
}
