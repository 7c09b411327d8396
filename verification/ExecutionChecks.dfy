/** What each of the eighteen checks asks of plan, quote, account and broker, and what a verdict's figures are. */
module ExecutionChecks {
  import opened Prelude
  import opened Contracts
  import opened ExecutionGuard

  /** A buyer pays the ask, a seller receives the bid. */
  predicate IsPaid(p: SignalPlan, q: Tick, price: real) {
    (p.side == Buy ==> price == q.ask) && (p.side == Sell ==> price == q.bid)
  }

  function Multiple(n: int, step: real): real {
    n as real * step
  }

  /** Some whole number of steps. */
  ghost predicate IsWhole(value: real, step: real) {
    exists n: int :: value == Multiple(n, step)
  }

  predicate IsFarEnough(a: real, b: real, points: int, point: real) {
    a - b >= Multiple(points, point) || b - a >= Multiple(points, point)
  }

  /** The broker trades the symbol in these sizes, at these prices and at this distance from stop and target. */
  ghost predicate SuitsTheBroker(p: SignalPlan, profile: Profile, s: Symbol, price: real) {
    && s.tradeEnabled && s.tickSize == profile.tickSize && p.tickSize == profile.tickSize
    && p.volume >= s.volumeMinimum && p.volume <= s.volumeMaximum && IsWhole(p.volume, s.volumeStep)
    && IsWhole(p.entry, s.tickSize) && IsWhole(p.stop, s.tickSize) && IsWhole(p.target, s.tickSize)
    && IsFarEnough(price, p.stop, s.stopsLevel, s.point) && IsFarEnough(price, p.stop, s.freezeLevel, s.point)
    && IsFarEnough(p.target, price, s.stopsLevel, s.point) && IsFarEnough(p.target, price, s.freezeLevel, s.point)
  }

  /** A price with something to lose and something to gain gains at least the minimum multiple of what it risks. */
  predicate GainsEnough(p: SignalPlan, price: real) {
    && (p.side == Buy && p.stop < price < p.target ==> p.target - price >= p.minimumRr * (price - p.stop))
    && (p.side == Sell && p.target < price < p.stop ==> price - p.target >= p.minimumRr * (p.stop - price))
  }

  /** The check behind a reason holds. */
  ghost predicate Holds(r: Reject, p: SignalPlan, profile: Profile, policy: Policy, c: Context, price: real) {
    match r
    case ProfileMismatch =>
      (p.profileId, p.profileVersion, p.profileFingerprint)
      == (profile.profileId, profile.profileVersion, profile.manifestFingerprint)
    case PolicyMismatch =>
      (policy.profileId, policy.profileFingerprint, policy.maximumSpread)
      == (profile.profileId, profile.manifestFingerprint, p.maximumSpread)
    case Age =>
      p.entryReadyAt <= c.quote.time <= p.validUntil <= p.entryReadyAt + policy.maximumSignalAge
    case Drift => GainsEnough(p, price)
    case SpreadExceeded => c.quote.ask <= c.quote.bid + policy.maximumSpread
    case Invalidation => (p.side == Buy ==> price > p.invalidation) && (p.side == Sell ==> price < p.invalidation)
    case AccountMismatch => p.accountLogin == c.account.login
    case ServerMode =>
      && p.accountServer == c.account.server && p.tradeMode == c.account.tradeMode
      && (c.engineeringDemo ==> p.tradeMode == profile.engineeringTradeMode)
      && (!c.engineeringDemo ==> p.tradeMode == profile.expectedTradeMode)
    case Terminal => p.terminalIdentity == c.account.terminalIdentity
    case SymbolMismatch => p.symbol == profile.symbol && p.symbol == c.symbol.symbol
    case Magic => p.magic == profile.magic
    case PositionCount => c.exposure.positionCount < profile.maxPositions
    case TotalVolume => c.exposure.totalVolume + p.volume <= profile.maxTotalLot
    case FreeMargin => c.requiredMargin <= c.account.freeMargin
    case Duplicate => p.signalId !in c.exposure.activeSignalIds
    case BrokerConstraint => SuitsTheBroker(p, profile, c.symbol, price)
    case Geometry =>
      (p.side == Buy ==> p.stop < price < p.target) && (p.side == Sell ==> p.target < price < p.stop)
    case BrokerCheck => c.brokerAllows
  }

  lemma AlignedIsWhole(value: real, step: real)
    requires step > 0.0
    ensures Aligned(value, step) <==> IsWhole(value, step)
  {
    if Aligned(value, step) {
      assert value == Multiple((value / step).Floor, step);
    }
    if IsWhole(value, step) {
      var n: int :| value == Multiple(n, step);
      QuotientIs(n as real, value, step);
    }
  }

  lemma DistanceIsTheLargerLevel(a: real, b: real, s: Symbol)
    requires ValidSymbol(s)
    ensures Abs(a - b) >= Multiple(MaxInt(s.stopsLevel, s.freezeLevel), s.point) <==>
              IsFarEnough(a, b, s.stopsLevel, s.point) && IsFarEnough(a, b, s.freezeLevel, s.point)
  {
    LevelsScale(s.stopsLevel, s.freezeLevel, s.point);
    LevelsScale(s.freezeLevel, s.stopsLevel, s.point);
    FarFromBoth(a - b, Multiple(s.stopsLevel, s.point), Multiple(s.freezeLevel, s.point));
  }

  lemma FarFromBoth(gap: real, low: real, high: real)
    requires low >= 0.0 && high >= 0.0
    ensures Abs(gap) >= Max(low, high) <==> (gap >= low || -gap >= low) && (gap >= high || -gap >= high)
  {
  }

  lemma LevelsScale(low: int, high: int, point: real)
    requires point > 0.0 && low >= 0 && high >= 0
    ensures Multiple(low, point) >= 0.0
    ensures low <= high ==> Multiple(low, point) <= Multiple(high, point)
  {
    assert low as real * point >= 0.0;
    if low <= high {
      Distribute(low as real, (high - low) as real, point);
      assert (high - low) as real * point >= 0.0;
    }
  }

  lemma ConstraintsSuitTheBroker(p: SignalPlan, profile: Profile, s: Symbol, price: real)
    requires ValidSymbol(s)
    ensures ConstraintsOk(p, profile, s, price) <==> SuitsTheBroker(p, profile, s, price)
  {
    AlignedIsWhole(p.volume, s.volumeStep);
    AlignedIsWhole(p.entry, s.tickSize);
    AlignedIsWhole(p.stop, s.tickSize);
    AlignedIsWhole(p.target, s.tickSize);
    DistanceIsTheLargerLevel(price, p.stop, s);
    DistanceIsTheLargerLevel(p.target, price, s);
    ConstraintsAre(p, profile, s, price, Multiple(MaxInt(s.stopsLevel, s.freezeLevel), s.point));
  }

  lemma ConstraintsAre(p: SignalPlan, profile: Profile, s: Symbol, price: real, distance: real)
    requires ValidSymbol(s) && distance == Multiple(MaxInt(s.stopsLevel, s.freezeLevel), s.point)
    ensures ConstraintsOk(p, profile, s, price) <==>
              && s.tradeEnabled && s.tickSize == profile.tickSize && p.tickSize == profile.tickSize
              && p.volume >= s.volumeMinimum && p.volume <= s.volumeMaximum && Aligned(p.volume, s.volumeStep)
              && Aligned(p.entry, s.tickSize) && Aligned(p.stop, s.tickSize) && Aligned(p.target, s.tickSize)
              && Abs(price - p.stop) >= distance && Abs(p.target - price) >= distance
  {
  }

  lemma DriftedGainsTooLittle(p: SignalPlan, price: real)
    ensures Drifted(p, price) <==> !GainsEnough(p, price)
  {
    if Risk(p, price) > 0.0 {
      AtLeastRatio(Reward(p, price), Risk(p, price), p.minimumRr);
    }
  }

  lemma RejectsWhatFails(r: Reject, p: SignalPlan, profile: Profile, policy: Policy, c: Context, price: real)
    requires ValidContext(c) && IsPaid(p, c.quote, price)
    ensures Rejects(r, p, profile, policy, c) <==> !Holds(r, p, profile, policy, c, price)
  {
    assert price == Executable(p.side, c.quote);
    match r
    case Drift =>
      DriftedGainsTooLittle(p, price);
    case BrokerConstraint =>
      ConstraintsSuitTheBroker(p, profile, c.symbol, price);
    case _ =>
  }

  /** Every reason names a check that fails, every failing check is named, and an order needs all eighteen to hold. */
  lemma OrderIsIssuedIffAllHold(p: SignalPlan, profile: Profile, policy: Policy, c: Context, price: real)
    requires ValidPlan(p) && ValidContext(c) && IsPaid(p, c.quote, price)
    ensures var v := Validate(p, profile, policy, c);
            && (forall r :: r in v.reasons <==> !Holds(r, p, profile, policy, c, price))
            && (v.order != None <==> forall r :: Holds(r, p, profile, policy, c, price))
            && (v.allowed <==> v.order != None)
  {
    var v := Validate(p, profile, policy, c);
    forall r ensures r in v.reasons <==> !Holds(r, p, profile, policy, c, price) {
      ReasonIffRejected(r, p, profile, policy, c);
      RejectsWhatFails(r, p, profile, policy, c, price);
    }
    assert v.reasons != [] ==> v.reasons[0] in v.reasons;
  }

  /** The place of a reason in a verdict. */
  function Place(r: Reject): nat {
    match r
    case ProfileMismatch => 0 case PolicyMismatch => 1 case Age => 2 case Drift => 3 case SpreadExceeded => 4
    case Invalidation => 5 case AccountMismatch => 6 case ServerMode => 7 case Terminal => 8
    case SymbolMismatch => 9 case Magic => 10 case PositionCount => 11 case TotalVolume => 12
    case FreeMargin => 13 case Duplicate => 14 case BrokerConstraint => 15 case Geometry => 16
    case BrokerCheck => 17
  }

  lemma ChecksAreInPlace(k: nat)
    requires k < |CHECKS|
    ensures Place(CHECKS[k]) == k
  {
    assert k in [0, 1, 2, 3, 4, 5, 6, 7, 8, 9, 10, 11, 12, 13, 14, 15, 16, 17];
  }

  ghost predicate InPlace(reasons: seq<Reject>, n: nat) {
    && (forall i, j :: 0 <= i < j < |reasons| ==> Place(reasons[i]) < Place(reasons[j]))
    && (forall i :: 0 <= i < |reasons| ==> Place(reasons[i]) < n)
  }

  lemma InPlaceGrows(reasons: seq<Reject>, n: nat, r: Reject)
    requires InPlace(reasons, n) && Place(r) == n
    ensures InPlace(reasons, n + 1) && InPlace(reasons + [r], n + 1)
  {
  }

  /** Reasons come in the order of the checks, each at most once. */
  lemma {:induction false} ReasonsRunInOrder(n: nat, p: SignalPlan, profile: Profile, policy: Policy, c: Context)
    requires n <= |CHECKS| && ValidContext(c)
    ensures InPlace(Reasons(n, p, profile, policy, c), n)
  {
    if n > 0 {
      ReasonsRunInOrder(n - 1, p, profile, policy, c);
      ChecksAreInPlace(n - 1);
      var before, r := Reasons(n - 1, p, profile, policy, c), CHECKS[n - 1];
      InPlaceGrows(before, n - 1, r);
      assert before + [] == before;
    }
  }

  // ---- Figures ----

  /** The part of a difference above zero. */
  predicate IsExcess(x: real, over: real, under: real) {
    (over >= under ==> x == over - under) && (over < under ==> x == 0.0)
  }

  /** Risk, reward and ratio at a price. */
  predicate FiguresAre(p: SignalPlan, price: real, risk: real, reward: real, rr: real) {
    && (p.side == Buy ==> IsExcess(risk, price, p.stop) && IsExcess(reward, p.target, price))
    && (p.side == Sell ==> IsExcess(risk, p.stop, price) && IsExcess(reward, price, p.target))
    && (if risk > 0.0 && reward > 0.0 then rr * risk == reward else rr == 0.0)
  }

  /** A drift in units of the planned risk. */
  predicate DriftIs(p: SignalPlan, price: real, drift: real) {
    && (p.side == Buy ==> IsExcess(drift * p.plannedRisk, price, p.entry))
    && (p.side == Sell ==> IsExcess(drift * p.plannedRisk, p.entry, price))
  }

  lemma FiguresAtAPrice(p: SignalPlan, price: real)
    ensures FiguresAre(p, price, Max(0.0, Risk(p, price)), Max(0.0, Reward(p, price)), Rr(p, price))
  {
    var risk, reward := Risk(p, price), Reward(p, price);
    if risk > 0.0 && reward > 0.0 {
      assert reward / risk * risk == reward;
    }
  }

  lemma DriftAtAPrice(p: SignalPlan, price: real)
    requires p.plannedRisk > 0.0
    ensures DriftIs(p, price, AdverseDriftR(p, price))
  {
    var excess := Max(0.0, Along(p.side, p.entry, price));
    assert excess / p.plannedRisk * p.plannedRisk == excess;
  }

  /** Risk, reward, ratio and drift of a verdict, and every field of its order. */
  lemma VerdictFiguresAre(p: SignalPlan, profile: Profile, policy: Policy, c: Context, price: real)
    requires ValidPlan(p) && ValidContext(c) && IsPaid(p, c.quote, price)
    ensures var v := Validate(p, profile, policy, c);
            && v.price == price && FiguresAre(p, price, v.actualRisk, v.actualReward, v.actualRr)
            && DriftIs(p, price, v.adverseDriftR)
            && (v.order != None ==>
                  v.order.value == Order(p.signalId, p.symbol, p.side, p.volume, price, p.stop, p.target, p.magic,
                                         profile.deviationPoints))
  {
    assert price == Executable(p.side, c.quote);
    FiguresAtAPrice(p, price);
    DriftAtAPrice(p, price);
  }

  /** The price at which reward is exactly the minimum multiple of risk. */
  predicate IsEdge(p: SignalPlan, edge: real) {
    && (p.side == Buy ==> p.target - edge == p.minimumRr * (edge - p.stop))
    && (p.side == Sell ==> edge - p.target == p.minimumRr * (p.stop - edge))
  }

  /** The largest drift is the one to that price. */
  lemma MaximumDriftEndsAtTheEdge(p: SignalPlan, profile: Profile, policy: Policy, c: Context)
    requires ValidPlan(p) && ValidContext(c)
    ensures IsEdge(p, Boundary(p)) && DriftIs(p, Boundary(p), Validate(p, profile, policy, c).maximumAdverseDriftR)
  {
    BoundaryIsAnEdge(p);
    DriftToTheEdge(p);
  }

  lemma BoundaryIsAnEdge(p: SignalPlan)
    requires p.minimumRr > 0.0
    ensures IsEdge(p, Boundary(p))
  {
    EdgeTimes(p);
    EdgeBalances(p.target, p.stop, p.minimumRr, Boundary(p));
  }

  lemma EdgeTimes(p: SignalPlan)
    requires p.minimumRr > 0.0
    ensures Boundary(p) * (1.0 + p.minimumRr) == p.target + p.minimumRr * p.stop
  {
  }

  lemma DriftToTheEdge(p: SignalPlan)
    requires p.plannedRisk > 0.0 && p.minimumRr > 0.0
    ensures DriftIs(p, Boundary(p), MaximumAdverseDriftR(p))
  {
    DriftAtAPrice(p, Boundary(p));
  }

  lemma EdgeBalances(target: real, stop: real, m: real, edge: real)
    requires edge * (1.0 + m) == target + m * stop
    ensures target - edge == m * (edge - stop) && edge - target == m * (stop - edge)
  {
    assert edge * (1.0 + m) == edge + m * edge;
    assert m * (edge - stop) == m * edge - m * stop;
    assert m * (stop - edge) == m * stop - m * edge;
  }
}
