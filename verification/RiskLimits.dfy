/** What the figures behind a position size mean: capital, loss, budget, mode and refusals over the request's fields. */
module RiskLimits {
  import opened Prelude
  import opened RiskSizing

  // ---- Capital ----

  /** The capital never exceeds the equity, and is nothing when the equity is. */
  lemma CapitalStaysWithinTheAccount(r: Request)
    ensures 0.0 <= CapitalBase(r) <= Max(r.account.equity, 0.0)
  {
    if r.allocation.PercentEquity? {
      PercentIsWithin(r, Max(r.account.equity, 0.0), Min(Max(r.allocation.value, 0.0), 100.0) / 100.0);
    }
  }

  lemma PercentIsWithin(r: Request, equity: real, share: real)
    requires r.allocation.PercentEquity? && equity == Max(r.account.equity, 0.0)
    requires share == Min(Max(r.allocation.value, 0.0), 100.0) / 100.0
    ensures 0.0 <= CapitalBase(r) <= equity
  {
    ShareIsWithin(equity, share);
    assert CapitalBase(r) == equity * share;
  }

  lemma ShareIsWithin(whole: real, share: real)
    requires whole >= 0.0 && 0.0 <= share <= 1.0
    ensures 0.0 <= whole * share <= whole
  {
    ScaleMonotone(whole, 0.0, share);
    ScaleMonotone(whole, share, 1.0);
  }

  lemma FullAllocationIsTheEquity(r: Request)
    requires r.allocation == FullEquity && r.account.equity >= 0.0
    ensures CapitalBase(r) == r.account.equity
  {
  }

  /** A percentage of the equity, taken between nothing and all of it. */
  lemma PercentAllocationIsItsShare(r: Request, pct: real)
    requires r.allocation == PercentEquity(pct) && r.account.equity >= 0.0
    ensures pct <= 0.0 ==> CapitalBase(r) == 0.0
    ensures 0.0 <= pct <= 100.0 ==> 100.0 * CapitalBase(r) == pct * r.account.equity
    ensures 100.0 <= pct ==> CapitalBase(r) == r.account.equity
  {
    assert Max(r.account.equity, 0.0) == r.account.equity;
    ShareOfTheEquity(r.account.equity, pct);
  }

  /** Cash is allocated as named, as far as the equity covers it. */
  lemma CashAllocationIsCovered(r: Request, cash: real)
    requires r.allocation == FixedCash(cash) && r.account.equity >= 0.0
    ensures cash < 0.0 ==> CapitalBase(r) == 0.0
    ensures 0.0 <= cash <= r.account.equity ==> CapitalBase(r) == cash
    ensures cash > r.account.equity ==> CapitalBase(r) == r.account.equity
  {
  }

  lemma ShareOfTheEquity(equity: real, pct: real)
    requires equity >= 0.0
    ensures var capital := equity * (Min(Max(pct, 0.0), 100.0) / 100.0);
            && capital <= equity
            && (pct <= 0.0 ==> capital == 0.0)
            && (0.0 <= pct <= 100.0 ==> 100.0 * capital == pct * equity)
            && (100.0 <= pct ==> capital == equity)
  {
    ShareIsWithin(equity, Min(Max(pct, 0.0), 100.0) / 100.0);
  }

  // ---- Loss ----

  /** What one lot is worth at a price, counted in ticks. */
  function LotWorth(s: Symbol, price: real): real
    requires s.tickSize > 0.0
  {
    price / s.tickSize * s.tickValue
  }

  predicate HasTicks(s: Symbol) {
    s.tickSize > 0.0 && s.tickValue > 0.0 && s.point > 0.0
  }

  lemma WorthDiffers(s: Symbol, price: real, move: real)
    requires s.tickSize > 0.0
    ensures LotWorth(s, price) - LotWorth(s, price - move) == move / s.tickSize * s.tickValue
  {
    assert (price - move) / s.tickSize == price / s.tickSize - move / s.tickSize;
    Distribute(price / s.tickSize, -(move / s.tickSize), s.tickValue);
  }

  /** The loss per lot is what one lot loses over the stop distance, from whatever price it was entered at. */
  lemma LossIsTheMoveToTheStop(r: Request, entry: real)
    requires HasTicks(r.symbol)
    ensures LossPerLot(r) == LotWorth(r.symbol, entry) - LotWorth(r.symbol, entry - r.stopDistance * r.symbol.point)
    ensures r.stopDistance > 0.0 ==> LossPerLot(r) > 0.0
  {
    WorthDiffers(r.symbol, entry, r.stopDistance * r.symbol.point);
    if r.stopDistance > 0.0 {
      PositiveProduct(r.stopDistance, r.symbol.point);
      PositiveProduct(r.stopDistance * r.symbol.point / r.symbol.tickSize, r.symbol.tickValue);
    }
  }

  lemma PositiveProduct(a: real, b: real)
    requires a > 0.0 && b > 0.0
    ensures a * b > 0.0
  {
  }

  // ---- Budget ----

  /** A share of the capital in percent. */
  predicate IsWithinShare(cash: real, capital: real, pct: real) {
    100.0 * cash <= capital * pct
  }

  lemma ShareOfCapital(capital: real, pct: real)
    ensures 100.0 * (capital * (pct / 100.0)) == capital * pct
  {
  }

  lemma RemainingIsAShare(capital: real, limit: real, used: real)
    requires capital > 0.0
    ensures limit > used ==> 100.0 * Remaining(capital, limit, used) == capital * (limit - used) > 0.0
    ensures limit <= used ==> Remaining(capital, limit, used) == 0.0
  {
    ShareOfCapital(capital, limit - used);
    if limit > used {
      PositiveProduct(capital, limit - used);
    }
  }

  /** The budget is the tightest of three shares: the risk of one trade, and what is left of the two allowances. */
  lemma BudgetIsTheTightestShare(r: Request, pct: real, capital: real)
    requires capital > 0.0
    ensures var budget := RiskCashBudget(r, pct, capital);
            var daily := r.policy.dailyLossLimitPct - r.account.dailyLossPct;
            var open := r.policy.maxOpenRiskPct - r.account.openRiskPct;
            && budget >= 0.0
            && (budget == 0.0 <==> pct <= 0.0 || daily <= 0.0 || open <= 0.0)
            && (budget > 0.0 ==>
                  && IsWithinShare(budget, capital, pct) && IsWithinShare(budget, capital, daily)
                  && IsWithinShare(budget, capital, open)
                  && (100.0 * budget == capital * pct || 100.0 * budget == capital * daily
                      || 100.0 * budget == capital * open))
  {
    ShareOfCapital(capital, pct);
    SignOfAShare(capital, pct);
    RemainingIsAShare(capital, r.policy.dailyLossLimitPct, r.account.dailyLossPct);
    RemainingIsAShare(capital, r.policy.maxOpenRiskPct, r.account.openRiskPct);
  }

  lemma SignOfAShare(capital: real, pct: real)
    requires capital > 0.0
    ensures capital * (pct / 100.0) > 0.0 <==> pct > 0.0
  {
    if pct > 0.0 {
      PositiveProduct(capital, pct / 100.0);
    } else {
      ScaleMonotone(capital, pct / 100.0, 0.0);
    }
  }

  // ---- Mode ----

  /** A used share of an allowance has reached the mark; an allowance of nothing counts as used up. */
  predicate IsUsedUpTo(used: real, limit: real, mark: real) {
    if limit > 0.0 then used >= mark * limit else mark <= 1.0
  }

  predicate SpreadIsWide(s: Symbol, limit: real) {
    if s.volatility != None && s.volatility.value > 0.0 then s.spread >= limit * s.volatility.value else limit <= 0.0
  }

  predicate MarginIsThin(a: Account, limit: real) {
    if a.equity <= 0.0 then limit >= 0.0
    else if a.freeMargin <= 0.0 then limit >= 0.0
    else a.freeMargin <= limit * a.equity
  }

  predicate IsUnderPressure(r: Request, spread: real, margin: real, mark: real) {
    || SpreadIsWide(r.symbol, spread) || MarginIsThin(r.account, margin)
    || IsUsedUpTo(r.account.dailyLossPct, r.policy.dailyLossLimitPct, mark)
    || IsUsedUpTo(r.account.openRiskPct, r.policy.maxOpenRiskPct, mark)
  }

  /** A quotient compares as its parts do. */
  lemma QuotientCompares(a: real, d: real, limit: real)
    requires d > 0.0
    ensures a / d >= limit <==> a >= limit * d
    ensures a / d <= limit <==> a <= limit * d
  {
    var q := a / d;
    assert q * d == a;
    if q < limit {
      Widen(q, limit, d);
    } else if limit < q {
      Widen(limit, q, d);
    }
  }

  lemma RatioCompares(used: real, limit: real, mark: real)
    ensures Ratio(used, limit) >= mark <==> IsUsedUpTo(used, limit, mark)
  {
    if limit > 0.0 {
      QuotientCompares(used, limit, mark);
    }
  }

  lemma SpreadCompares(s: Symbol, limit: real)
    ensures SpreadRatio(s) >= limit <==> SpreadIsWide(s, limit)
  {
    if s.volatility != None && s.volatility.value > 0.0 {
      QuotientCompares(s.spread, s.volatility.value, limit);
    }
  }

  lemma MarginCompares(a: Account, limit: real)
    ensures MarginBuffer(a) <= limit <==> MarginIsThin(a, limit)
  {
    if a.equity > 0.0 && a.freeMargin > 0.0 {
      QuotientCompares(a.freeMargin, a.equity, limit);
    }
  }

  lemma PressureIs(r: Request, spread: real, margin: real, mark: real)
    ensures Pressed(r, spread, margin, mark) <==> IsUnderPressure(r, spread, margin, mark)
  {
    SpreadCompares(r.symbol, spread);
    MarginCompares(r.account, margin);
    RatioCompares(r.account.dailyLossPct, r.policy.dailyLossLimitPct, mark);
    RatioCompares(r.account.openRiskPct, r.policy.maxOpenRiskPct, mark);
  }

  predicate IsHeavy(r: Request, capital: real, weight: real) {
    capital <= r.policy.smallEquity && r.symbol.riskWeight >= weight
  }

  /** Reasons to trade at the strictest. */
  predicate CallsForStrict(r: Request, capital: real, allocation: AllocationStatus) {
    || r.force || !(r.symbol.tradeAllowed && r.symbol.quoteSession && r.symbol.tradeSession)
    || allocation == Rejection || capital < r.policy.minCapital || IsHeavy(r, capital, r.policy.strictWeight)
    || IsUnderPressure(r, r.policy.strictSpread, r.policy.strictMargin, 0.80)
  }

  predicate CallsForCaution(r: Request, capital: real) {
    || IsHeavy(r, capital, r.policy.cautionWeight)
    || IsUnderPressure(r, r.policy.cautionSpread, r.policy.cautionMargin, 0.50)
  }

  /** A requested mode is obeyed; else the strictest mode that anything calls for. */
  lemma ModeIsTheStrictestCalledFor(r: Request, capital: real, allocation: AllocationStatus)
    ensures var mode := AssessSuitability(r, capital, allocation);
            if r.requestedMode != None then mode == r.requestedMode.value
            else
              && (mode == Strict <==> CallsForStrict(r, capital, allocation))
              && (mode == Caution <==> !CallsForStrict(r, capital, allocation) && CallsForCaution(r, capital))
  {
    PressureIs(r, r.policy.strictSpread, r.policy.strictMargin, 0.80);
    PressureIs(r, r.policy.cautionSpread, r.policy.cautionMargin, 0.50);
  }

  // ---- Allocation ----

  /** A figure of the symbol, or that of its class when it has none. */
  function Own(o: Option<real>, classFigure: real): real {
    if o != None && o.value > 0.0 then o.value else classFigure
  }

  /** Twice the margin of the smallest trade. */
  function TwiceTheMargin(s: Symbol): real {
    var (lot, contract, rate, _) := Baseline(s.kind);
    2.0 * (Own(s.price, 0.0) * Own(s.contractSize, contract) * Own(Some(s.volumeMin), lot) * Own(s.marginRate, rate))
  }

  lemma FloorIs(s: Symbol)
    ensures HardFloor(s) == Max(Baseline(s.kind).3, TwiceTheMargin(s))
  {
    var (lot, contract, rate, floor) := Baseline(s.kind);
    assert Own(s.price, 0.0) == Positive(s.price, 0.0);
    assert Own(s.contractSize, contract) == Positive(s.contractSize, contract);
    assert Own(s.marginRate, rate) == Positive(s.marginRate, rate);
  }

  /** The least practical risk is more than `pct` percent of the allocation. */
  predicate RiskIsOver(s: Symbol, style: Style, allocation: real, pct: real) {
    allocation <= 0.0 || 100.0 * MinimumRiskCash(s.kind, style) > allocation * pct
  }

  lemma RiskCompares(s: Symbol, style: Style, allocation: real, pct: real)
    ensures RiskExceeds(s.kind, style, allocation, pct) <==> RiskIsOver(s, style, allocation, pct)
  {
    if allocation > 0.0 {
      var risk := MinimumRiskCash(s.kind, style);
      QuotientCompares(100.0 * risk, allocation, pct);
      assert risk / allocation * 100.0 == 100.0 * risk / allocation;
    }
  }

  /** Too little for the class, the margin or twice the tolerated risk is rejected; a close call is a warning. */
  lemma AllocationIsJudged(s: Symbol, style: Style, allocation: real)
    ensures var status, most := EvaluateAllocation(s, style, allocation), MaxRiskPct(style);
            && (status == Rejection <==>
                  || allocation < Baseline(s.kind).3 || allocation < TwiceTheMargin(s)
                  || RiskIsOver(s, style, allocation, 2.0 * most))
            && (status == Fine <==>
                  && allocation >= Baseline(s.kind).3 && allocation >= TwiceTheMargin(s)
                  && allocation >= RecommendedMinimum(s.kind, style) && !RiskIsOver(s, style, allocation, most))
  {
    FloorIs(s);
    JudgedBy(s, style, allocation, MaxRiskPct(style));
  }

  lemma JudgedBy(s: Symbol, style: Style, allocation: real, most: real)
    requires most == MaxRiskPct(style)
    ensures var status := EvaluateAllocation(s, style, allocation);
            && (status == Rejection <==> allocation < HardFloor(s) || RiskIsOver(s, style, allocation, 2.0 * most))
            && (status == Fine <==>
                  && allocation >= HardFloor(s) && allocation >= RecommendedMinimum(s.kind, style)
                  && !RiskIsOver(s, style, allocation, most))
  {
    RiskCompares(s, style, allocation, 2.0 * most);
    RiskCompares(s, style, allocation, most);
    if !RiskIsOver(s, style, allocation, most) {
      RiskToleratedTwice(s, style, allocation, most);
    }
  }

  lemma RiskToleratedTwice(s: Symbol, style: Style, allocation: real, pct: real)
    requires pct > 0.0 && !RiskIsOver(s, style, allocation, pct)
    ensures !RiskIsOver(s, style, allocation, 2.0 * pct)
  {
    PositiveProduct(allocation, pct);
    assert allocation * (2.0 * pct) == 2.0 * (allocation * pct);
  }

  /** Every recommended minimum earns a clean verdict but one: 350 for swing trading an index is warned about itself. */
  lemma RecommendedMinimumIsFineIff(s: Symbol, style: Style)
    requires TwiceTheMargin(s) <= RecommendedMinimum(s.kind, style)
    ensures EvaluateAllocation(s, style, RecommendedMinimum(s.kind, style)) == Fine <==>
              !(s.kind == IndexCfd && style == Swing)
  {
    AllocationIsJudged(s, style, RecommendedMinimum(s.kind, style));
  }

  /** Faster styles need less capital and less risk, and every recommendation is at least the floor of its class. */
  lemma FasterStylesNeedLess(c: InstrumentClass)
    ensures Baseline(c).3 <= RecommendedMinimum(c, Scalping)
    ensures RecommendedMinimum(c, Scalping) < RecommendedMinimum(c, Intraday) < RecommendedMinimum(c, Swing)
    ensures MinimumRiskCash(c, Scalping) < MinimumRiskCash(c, Intraday) < MinimumRiskCash(c, Swing)
  {
  }

  // ---- Verdict ----

  /** The share of the capital that a mode puts at risk. */
  function ShareAtRisk(p: Policy, mode: Mode): real {
    p.baseRiskPct
    * (match mode case Recommend => 1.0 case Caution => p.cautionMultiplier case Strict => p.strictMultiplier)
  }

  /** The budget that a request would have. */
  function BudgetFor(r: Request, capital: real, allocation: AllocationStatus): real {
    RiskCashBudget(r, ShareAtRisk(r.policy, AssessSuitability(r, capital, allocation)), capital)
  }

  /** What each refusal objects to. */
  predicate Objects(why: Refusal, r: Request, capital: real, allocation: AllocationStatus, budget: real) {
    match why
    case NoCapital => capital <= 0.0
    case NoStop => r.stopDistance <= 0.0
    case StopTooClose => r.stopDistance < r.symbol.stopsLevel
    case AllocationRejected => allocation == Rejection
    case NoBudget => budget <= 0.0
    case BadTicks => !HasTicks(r.symbol)
    case BudgetTooSmall => budget < r.policy.minRiskCash
    case VolumeTooSmall =>
      NormalizeVolume(Raw(budget, LossPerLot(r)), r.symbol.volumeMin, r.symbol.volumeMax, r.symbol.volumeStep)
      < r.symbol.volumeMin
  }

  function Place(why: Refusal): nat {
    match why
    case NoCapital => 0 case NoStop => 1 case StopTooClose => 2 case AllocationRejected => 3
    case NoBudget => 4 case BadTicks => 5 case BudgetTooSmall => 6 case VolumeTooSmall => 7
  }

  /** The refusal is an objection, and none comes before it. */
  ghost predicate IsFirst(refusal: Option<Refusal>, why: Refusal, objects: bool) {
    && (refusal == Some(why) ==> objects)
    && (objects ==> refusal != None && Place(refusal.value) <= Place(why))
  }

  lemma EarlyObjections(r: Request, capital: real, allocation: AllocationStatus, budget: real, why: Refusal)
    ensures Place(why) < 4 ==> IsFirst(EarlyRefusal(r, capital, allocation), why,
                                       Objects(why, r, capital, allocation, budget))
    ensures EarlyRefusal(r, capital, allocation).Some? ==> Place(EarlyRefusal(r, capital, allocation).value) < 4
  {
  }

  lemma TicksGiveALoss(r: Request)
    requires r.stopDistance > 0.0
    ensures LossPerLot(r) > 0.0 <==> HasTicks(r.symbol)
  {
    if HasTicks(r.symbol) {
      LossIsTheMoveToTheStop(r, 0.0);
    }
  }

  lemma LateObjections(r: Request, capital: real, allocation: AllocationStatus, budget: real, loss: real, why: Refusal,
      normalized: real)
    requires loss == LossPerLot(r) && (loss > 0.0 <==> HasTicks(r.symbol))
    requires normalized
          == NormalizeVolume(Raw(budget, loss), r.symbol.volumeMin, r.symbol.volumeMax, r.symbol.volumeStep)
    ensures Place(why) >= 4 ==> IsFirst(LateRefusal(r, budget, loss, normalized), why,
                                        Objects(why, r, capital, allocation, budget))
    ensures LateRefusal(r, budget, loss, normalized).Some? ==>
              Place(LateRefusal(r, budget, loss, normalized).value) >= 4
  {
  }

  lemma BudgetIsTheOneFor(r: Request, capital: real, allocation: AllocationStatus)
    ensures var mode := AssessSuitability(r, capital, allocation);
            RiskCashBudget(r, EffectiveRiskPct(r.policy, mode), capital) == BudgetFor(r, capital, allocation)
  {
    assert forall mode :: EffectiveRiskPct(r.policy, mode) == ShareAtRisk(r.policy, mode);
  }

  lemma EarlyThenLate(r: Request, capital: real, allocation: AllocationStatus, loss: real, budget: real)
    requires budget == BudgetFor(r, capital, allocation)
    ensures SizeWith(r, capital, allocation, loss).refusal
         == Or(EarlyRefusal(r, capital, allocation),
               LateRefusal(r, budget, loss, NormalizeVolume(Raw(budget, loss), r.symbol.volumeMin,
                                                            r.symbol.volumeMax, r.symbol.volumeStep)))
  {
    BudgetIsTheOneFor(r, capital, allocation);
  }

  lemma RefusalObjects(r: Request, capital: real, allocation: AllocationStatus, s: SizeResult, why: Refusal)
    requires s == SizeWith(r, capital, allocation, LossPerLot(r))
    ensures IsFirst(s.refusal, why, Objects(why, r, capital, allocation, BudgetFor(r, capital, allocation)))
  {
    var budget, loss := BudgetFor(r, capital, allocation), LossPerLot(r);
    EarlyThenLate(r, capital, allocation, loss, budget);
    EarlyObjections(r, capital, allocation, budget, why);
    if EarlyRefusal(r, capital, allocation).None? {
      TicksGiveALoss(r);
      LateObjections(r, capital, allocation, budget, loss, why,
        NormalizeVolume(Raw(budget, loss), r.symbol.volumeMin, r.symbol.volumeMax, r.symbol.volumeStep));
    }
  }

  /** A trade is refused for the first objection there is, and accepted exactly when there is none. */
  lemma RefusedForTheFirstObjection(r: Request, capital: real, allocation: AllocationStatus, why: Refusal)
    requires capital == CapitalBase(r) && allocation == EvaluateAllocation(r.symbol, r.style, capital)
    ensures var refusal, budget := ComputePositionSize(r).refusal, BudgetFor(r, capital, allocation);
            && (refusal == Some(why) <==>
                  && Objects(why, r, capital, allocation, budget)
                  && (forall other :: Place(other) < Place(why) ==> !Objects(other, r, capital, allocation, budget)))
            && (refusal == None <==> forall other :: !Objects(other, r, capital, allocation, budget))
  {
    var s, budget := ComputePositionSize(r), BudgetFor(r, capital, allocation);
    FirstOfAll(r, capital, allocation, budget, s, why);
    if s.refusal != None {
      RefusalObjects(r, capital, allocation, s, s.refusal.value);
    } else {
      forall other ensures !Objects(other, r, capital, allocation, budget) {
        RefusalObjects(r, capital, allocation, s, other);
      }
    }
  }

  lemma FirstOfAll(r: Request, capital: real, allocation: AllocationStatus, budget: real, s: SizeResult, why: Refusal)
    requires s == SizeWith(r, capital, allocation, LossPerLot(r)) && budget == BudgetFor(r, capital, allocation)
    ensures s.refusal == Some(why) <==>
              && Objects(why, r, capital, allocation, budget)
              && (forall other :: Place(other) < Place(why) ==> !Objects(other, r, capital, allocation, budget))
  {
    RefusalObjects(r, capital, allocation, s, why);
    if s.refusal != None {
      RefusalObjects(r, capital, allocation, s, s.refusal.value);
      assert Place(s.refusal.value) == Place(why) ==> s.refusal.value == why;
    }
    forall other | Objects(other, r, capital, allocation, budget) && s.refusal == Some(why)
      ensures Place(why) <= Place(other)
    {
      RefusalObjects(r, capital, allocation, s, other);
    }
  }

  /** A refused trade carries no volume and no loss, and no budget before its capital and stop are in order. */
  lemma RefusedTradesCarryNothing(r: Request, s: SizeResult)
    requires s == ComputePositionSize(r) && s.refusal != None
    ensures s.volume == 0.0 && s.estimatedLoss == 0.0 && s.budget >= 0.0
    ensures s.capital == CapitalBase(r) || (s.capital == 0.0 && CapitalBase(r) <= 0.0)
    ensures Place(s.refusal.value) < 4 ==> s.mode == Strict && s.budget == 0.0 && s.effectiveRiskPct == 0.0
    ensures Place(s.refusal.value) >= 4 ==> s.effectiveRiskPct == ShareAtRisk(r.policy, s.mode)
  {
  }

  /** The figures of an accepted trade are those of its request and mode. */
  lemma AcceptedTradesUseTheirFigures(r: Request, s: SizeResult)
    requires s == ComputePositionSize(r) && Accepted(s)
    ensures s.capital == CapitalBase(r) > 0.0 && s.lossPerLot == LossPerLot(r) > 0.0
    ensures s.estimatedLoss == s.volume * s.lossPerLot && s.effectiveRiskPct == ShareAtRisk(r.policy, s.mode)
    ensures s.budget == RiskCashBudget(r, s.effectiveRiskPct, s.capital) && s.budget > 0.0
  {
    AcceptedFigures(r, CapitalBase(r), EvaluateAllocation(r.symbol, r.style, CapitalBase(r)), LossPerLot(r), s);
  }

  /** The loss of an accepted trade at its stop stays within the share of the capital that its mode puts at risk. */
  lemma AcceptedTradesRiskTheirShare(r: Request, s: SizeResult)
    requires s == ComputePositionSize(r) && Accepted(s) && r.symbol.volumeMin > 0.0
    requires r.symbol.volumeStep > 0.0 && OnGrain(r.symbol.volumeStep)
    ensures IsWithinShare(s.estimatedLoss - SLACK * s.lossPerLot, s.capital, s.effectiveRiskPct)
  {
    LossFitsTheBudget(r, s);
    AcceptedTradesUseTheirFigures(r, s);
    BudgetedLossIsAShare(r, s.estimatedLoss, s.budget, SLACK * s.lossPerLot, s.capital, s.effectiveRiskPct);
  }

  lemma LossFitsTheBudget(r: Request, s: SizeResult)
    requires s == ComputePositionSize(r) && Accepted(s) && r.symbol.volumeMin > 0.0
    requires r.symbol.volumeStep > 0.0 && OnGrain(r.symbol.volumeStep)
    ensures s.estimatedLoss <= s.budget + SLACK * s.lossPerLot
  {
    var n := AcceptedVolumeIsTheLargestFit(r, s);
  }

  lemma BudgetedLossIsAShare(r: Request, loss: real, budget: real, slack: real, capital: real, pct: real)
    requires capital > 0.0 && budget == RiskCashBudget(r, pct, capital) && budget > 0.0 && loss <= budget + slack
    ensures IsWithinShare(loss - slack, capital, pct)
  {
    BudgetIsTheTightestShare(r, pct, capital);
  }

  lemma AcceptedFigures(r: Request, capital: real, status: AllocationStatus, loss: real, s: SizeResult)
    requires s == SizeWith(r, capital, status, loss) && Accepted(s)
    ensures s.capital == capital > 0.0 && s.lossPerLot == loss > 0.0 && s.estimatedLoss == s.volume * loss
    ensures s.effectiveRiskPct == ShareAtRisk(r.policy, s.mode)
    ensures s.budget == RiskCashBudget(r, s.effectiveRiskPct, capital) && s.budget > 0.0
  {
  }
}
