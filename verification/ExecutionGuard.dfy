/** Validation of a signal plan against a live quote, and the symmetries its verdict has. */
module ExecutionGuard {
  import opened Prelude
  import opened Contracts

  datatype Reject =
    | ProfileMismatch | PolicyMismatch | Age | Drift | SpreadExceeded | Invalidation | AccountMismatch | ServerMode
    | Terminal | SymbolMismatch | Magic | PositionCount | TotalVolume | FreeMargin | Duplicate | BrokerConstraint
    | Geometry | BrokerCheck

  datatype Profile = Profile(
    profileId: string, profileVersion: string, manifestFingerprint: string, symbol: string, magic: int, tickSize: real,
    maxPositions: int, maxTotalLot: real, expectedTradeMode: TradeMode, engineeringTradeMode: TradeMode,
    deviationPoints: int)

  datatype Policy = Policy(profileId: string, profileFingerprint: string, maximumSpread: real, maximumSignalAge: int)

  datatype Account = Account(
    login: int, server: string, tradeMode: TradeMode, terminalIdentity: string, freeMargin: real)

  datatype Symbol = Symbol(
    symbol: string, tickSize: real, point: real, volumeMinimum: real, volumeMaximum: real, volumeStep: real,
    stopsLevel: int, freezeLevel: int, tradeEnabled: bool)

  datatype Exposure = Exposure(positionCount: int, totalVolume: real, activeSignalIds: set<string>)

  datatype Context = Context(
    quote: Tick, account: Account, symbol: Symbol, exposure: Exposure, requiredMargin: real, brokerAllows: bool,
    engineeringDemo: bool)

  predicate ValidSymbol(s: Symbol) {
    && s.tickSize > 0.0 && s.point > 0.0 && s.volumeStep > 0.0
    && 0.0 < s.volumeMinimum <= s.volumeMaximum && s.stopsLevel >= 0 && s.freezeLevel >= 0
  }

  predicate ValidContext(c: Context) {
    ValidTick(c.quote) && ValidSymbol(c.symbol) && c.exposure.positionCount >= 0 && c.exposure.totalVolume >= 0.0
  }

  datatype Order = Order(
    signalId: string, symbol: string, side: Side, volume: real, price: real, stop: real, target: real,
    magic: int, deviationPoints: int)

  datatype Verdict = Verdict(
    allowed: bool, reasons: seq<Reject>, adverseDriftR: real, maximumAdverseDriftR: real, price: real,
    actualRisk: real, actualReward: real, actualRr: real, order: Option<Order>)

  // ---- Figures ----

  function Executable(side: Side, quote: Tick): real {
    if side.Buy? then quote.ask else quote.bid
  }

  /** Distance in the direction of the trade. */
  function Along(side: Side, from: real, to: real): real {
    if side.Buy? then to - from else from - to
  }

  function Risk(p: SignalPlan, price: real): real { Along(p.side, p.stop, price) }

  function Reward(p: SignalPlan, price: real): real { Along(p.side, price, p.target) }

  function Rr(p: SignalPlan, price: real): real {
    if Risk(p, price) > 0.0 && Reward(p, price) > 0.0 then Reward(p, price) / Risk(p, price) else 0.0
  }

  function AdverseDriftR(p: SignalPlan, price: real): real
    requires p.plannedRisk > 0.0
  {
    Max(0.0, Along(p.side, p.entry, price)) / p.plannedRisk
  }

  /** The price at which reward to risk is exactly the plan's minimum. */
  function Boundary(p: SignalPlan): real
    requires p.minimumRr > 0.0
  {
    (p.target + p.minimumRr * p.stop) / (1.0 + p.minimumRr)
  }

  function MaximumAdverseDriftR(p: SignalPlan): real
    requires p.plannedRisk > 0.0 && p.minimumRr > 0.0
  {
    Max(0.0, Along(p.side, p.entry, Boundary(p))) / p.plannedRisk
  }

  predicate Between(p: SignalPlan, price: real) {
    if p.side.Buy? then p.stop < price < p.target else p.target < price < p.stop
  }

  predicate Drifted(p: SignalPlan, price: real) {
    Risk(p, price) > 0.0 && Reward(p, price) > 0.0 && Rr(p, price) < p.minimumRr
  }

  function MaxInt(a: int, b: int): int {
    if a >= b then a else b
  }

  predicate ConstraintsOk(p: SignalPlan, profile: Profile, s: Symbol, price: real)
    requires ValidSymbol(s)
  {
    var distance := MaxInt(s.stopsLevel, s.freezeLevel) as real * s.point;
    && s.tradeEnabled
    && s.tickSize == profile.tickSize == p.tickSize
    && s.volumeMinimum <= p.volume <= s.volumeMaximum
    && Aligned(p.volume, s.volumeStep)
    && Aligned(p.entry, s.tickSize) && Aligned(p.stop, s.tickSize) && Aligned(p.target, s.tickSize)
    && Abs(price - p.stop) >= distance && Abs(p.target - price) >= distance
  }

  /** The condition behind each reason. */
  predicate Rejects(r: Reject, p: SignalPlan, profile: Profile, policy: Policy, c: Context)
    requires ValidContext(c)
  {
    var price := Executable(p.side, c.quote);
    match r
    case ProfileMismatch =>
      || p.profileId != profile.profileId || p.profileVersion != profile.profileVersion
      || p.profileFingerprint != profile.manifestFingerprint
    case PolicyMismatch =>
      || policy.profileId != profile.profileId || policy.profileFingerprint != profile.manifestFingerprint
      || p.maximumSpread != policy.maximumSpread
    case Age => c.quote.time < p.entryReadyAt || c.quote.time > p.validUntil
      || p.validUntil - p.entryReadyAt > policy.maximumSignalAge
    case Drift => Drifted(p, price)
    case SpreadExceeded => Spread(c.quote) > policy.maximumSpread
    case Invalidation => if p.side.Buy? then price <= p.invalidation else price >= p.invalidation
    case AccountMismatch => c.account.login != p.accountLogin
    case ServerMode =>
      || c.account.server != p.accountServer || c.account.tradeMode != p.tradeMode
      || p.tradeMode != (if c.engineeringDemo then profile.engineeringTradeMode else profile.expectedTradeMode)
    case Terminal => c.account.terminalIdentity != p.terminalIdentity
    case SymbolMismatch => c.symbol.symbol != p.symbol || p.symbol != profile.symbol
    case Magic => p.magic != profile.magic
    case PositionCount => c.exposure.positionCount >= profile.maxPositions
    case TotalVolume => c.exposure.totalVolume + p.volume > profile.maxTotalLot
    case FreeMargin => c.account.freeMargin < c.requiredMargin
    case Duplicate => p.signalId in c.exposure.activeSignalIds
    case BrokerConstraint => !ConstraintsOk(p, profile, c.symbol, price)
    case Geometry => !Between(p, price)
    case BrokerCheck => !c.brokerAllows
  }

  const CHECKS := [
    ProfileMismatch, PolicyMismatch, Age, Drift, SpreadExceeded, Invalidation, AccountMismatch, ServerMode, Terminal,
    SymbolMismatch,
    Magic, PositionCount, TotalVolume, FreeMargin, Duplicate, BrokerConstraint, Geometry, BrokerCheck]

  /** The reasons among the first `n` checks, in checking order. */
  function Reasons(n: nat, p: SignalPlan, profile: Profile, policy: Policy, c: Context): seq<Reject>
    requires n <= |CHECKS| && ValidContext(c)
  {
    if n == 0 then []
    else
      Reasons(n - 1, p, profile, policy, c)
      + if Rejects(CHECKS[n - 1], p, profile, policy, c) then [CHECKS[n - 1]] else []
  }

  function OrderFor(p: SignalPlan, profile: Profile, price: real): Order {
    Order(p.signalId, p.symbol, p.side, p.volume, price, p.stop, p.target, p.magic, profile.deviationPoints)
  }

  function Validate(p: SignalPlan, profile: Profile, policy: Policy, c: Context): Verdict
    requires ValidPlan(p) && ValidContext(c)
  {
    var price := Executable(p.side, c.quote);
    var reasons := Reasons(|CHECKS|, p, profile, policy, c);
    Verdict(reasons == [], reasons, AdverseDriftR(p, price), MaximumAdverseDriftR(p), price,
            Max(0.0, Risk(p, price)), Max(0.0, Reward(p, price)), Rr(p, price),
            if reasons == [] then Some(OrderFor(p, profile, price)) else None)
  }

  /** Identity and age checks. */
  method CheckIdentity(p: SignalPlan, profile: Profile, policy: Policy, c: Context,
      price: real) returns (reasons: seq<Reject>)
    requires ValidContext(c) && price == Executable(p.side, c.quote)
    ensures reasons == Reasons(3, p, profile, policy, c)
  {
    reasons := [];
    if || p.profileId != profile.profileId || p.profileVersion != profile.profileVersion
       || p.profileFingerprint != profile.manifestFingerprint {
      reasons := reasons + [ProfileMismatch];
    }
    assert reasons == Reasons(1, p, profile, policy, c);
    if || policy.profileId != profile.profileId || policy.profileFingerprint != profile.manifestFingerprint
       || p.maximumSpread != policy.maximumSpread {
      reasons := reasons + [PolicyMismatch];
    }
    assert reasons == Reasons(2, p, profile, policy, c);
    if c.quote.time < p.entryReadyAt || c.quote.time > p.validUntil
      || p.validUntil - p.entryReadyAt > policy.maximumSignalAge {
      reasons := reasons + [Age];
    }
  }

  /** Price checks. */
  method CheckQuote(p: SignalPlan, profile: Profile, policy: Policy, c: Context, price: real,
      before: seq<Reject>) returns (reasons: seq<Reject>)
    requires ValidContext(c) && price == Executable(p.side, c.quote) && before == Reasons(3, p, profile, policy, c)
    ensures reasons == Reasons(6, p, profile, policy, c)
  {
    reasons := before;
    var risk, reward, rr := Risk(p, price), Reward(p, price), Rr(p, price);
    if risk > 0.0 && reward > 0.0 && rr < p.minimumRr {
      reasons := reasons + [Drift];
    }
    assert reasons == Reasons(4, p, profile, policy, c);
    if Spread(c.quote) > policy.maximumSpread {
      reasons := reasons + [SpreadExceeded];
    }
    assert reasons == Reasons(5, p, profile, policy, c);
    if (p.side.Buy? && price <= p.invalidation) || (p.side.Sell? && price >= p.invalidation) {
      reasons := reasons + [Invalidation];
    }
  }

  /** Ownership checks. */
  method CheckAccount(p: SignalPlan, profile: Profile, policy: Policy, c: Context, price: real,
      before: seq<Reject>) returns (reasons: seq<Reject>)
    requires ValidContext(c) && price == Executable(p.side, c.quote) && before == Reasons(6, p, profile, policy, c)
    ensures reasons == Reasons(11, p, profile, policy, c)
  {
    reasons := before;
    var expectedMode := if c.engineeringDemo then profile.engineeringTradeMode else profile.expectedTradeMode;
    if c.account.login != p.accountLogin {
      reasons := reasons + [AccountMismatch];
    }
    assert reasons == Reasons(7, p, profile, policy, c);
    if c.account.server != p.accountServer || c.account.tradeMode != p.tradeMode || p.tradeMode != expectedMode {
      reasons := reasons + [ServerMode];
    }
    assert reasons == Reasons(8, p, profile, policy, c);
    if c.account.terminalIdentity != p.terminalIdentity {
      reasons := reasons + [Terminal];
    }
    assert reasons == Reasons(9, p, profile, policy, c);
    if c.symbol.symbol != p.symbol || p.symbol != profile.symbol {
      reasons := reasons + [SymbolMismatch];
    }
    assert reasons == Reasons(10, p, profile, policy, c);
    if p.magic != profile.magic {
      reasons := reasons + [Magic];
    }
  }

  /** Exposure and margin checks. */
  method CheckExposure(p: SignalPlan, profile: Profile, policy: Policy, c: Context, price: real,
      before: seq<Reject>) returns (reasons: seq<Reject>)
    requires ValidContext(c) && price == Executable(p.side, c.quote) && before == Reasons(11, p, profile, policy, c)
    ensures reasons == Reasons(15, p, profile, policy, c)
  {
    reasons := before;
    if c.exposure.positionCount >= profile.maxPositions {
      reasons := reasons + [PositionCount];
    }
    assert reasons == Reasons(12, p, profile, policy, c);
    if c.exposure.totalVolume + p.volume > profile.maxTotalLot {
      reasons := reasons + [TotalVolume];
    }
    assert reasons == Reasons(13, p, profile, policy, c);
    if c.account.freeMargin < c.requiredMargin {
      reasons := reasons + [FreeMargin];
    }
    assert reasons == Reasons(14, p, profile, policy, c);
    if p.signalId in c.exposure.activeSignalIds {
      reasons := reasons + [Duplicate];
    }
  }

  /** Broker and geometry checks. */
  method CheckBroker(p: SignalPlan, profile: Profile, policy: Policy, c: Context, price: real,
      before: seq<Reject>) returns (reasons: seq<Reject>)
    requires ValidContext(c) && price == Executable(p.side, c.quote) && before == Reasons(15, p, profile, policy, c)
    ensures reasons == Reasons(18, p, profile, policy, c)
  {
    reasons := before;
    if !ConstraintsOk(p, profile, c.symbol, price) {
      reasons := reasons + [BrokerConstraint];
    }
    assert reasons == Reasons(16, p, profile, policy, c);
    if !(if p.side.Buy? then p.stop < price < p.target else p.target < price < p.stop) {
      reasons := reasons + [Geometry];
    }
    assert reasons == Reasons(17, p, profile, policy, c);
    if !c.brokerAllows {
      reasons := reasons + [BrokerCheck];
    }
  }

  method ValidateExecution(p: SignalPlan, profile: Profile, policy: Policy, c: Context) returns (v: Verdict)
    requires ValidPlan(p) && ValidContext(c)
    ensures v == Validate(p, profile, policy, c)
  {
    var price := if p.side.Buy? then c.quote.ask else c.quote.bid;
    var reasons := CheckIdentity(p, profile, policy, c, price);
    reasons := CheckQuote(p, profile, policy, c, price, reasons);
    reasons := CheckAccount(p, profile, policy, c, price, reasons);
    reasons := CheckExposure(p, profile, policy, c, price, reasons);
    reasons := CheckBroker(p, profile, policy, c, price, reasons);
    v := Verdict(reasons == [], reasons, AdverseDriftR(p, price), MaximumAdverseDriftR(p), price,
                 Max(0.0, Risk(p, price)), Max(0.0, Reward(p, price)), Rr(p, price),
                 if reasons == [] then Some(OrderFor(p, profile, price)) else None);
  }

  // ---- Reasons ----

  lemma {:induction false} ReasonsAreTheFailedChecks(n: nat, p: SignalPlan, profile: Profile, policy: Policy,
      c: Context)
    requires n <= |CHECKS| && ValidContext(c)
    ensures forall r :: r in Reasons(n, p, profile, policy, c) <==>
              r in CHECKS[..n] && Rejects(r, p, profile, policy, c)
  {
    if n > 0 {
      ReasonsAreTheFailedChecks(n - 1, p, profile, policy, c);
      assert CHECKS[..n] == CHECKS[..n - 1] + [CHECKS[n - 1]];
    }
  }

  lemma EveryReasonIsChecked(r: Reject)
    ensures r in CHECKS
  {
    var k := match r
      case ProfileMismatch => 0 case PolicyMismatch => 1 case Age => 2 case Drift => 3 case SpreadExceeded => 4
      case Invalidation => 5 case AccountMismatch => 6 case ServerMode => 7 case Terminal => 8
      case SymbolMismatch => 9 case Magic => 10 case PositionCount => 11 case TotalVolume => 12
      case FreeMargin => 13 case Duplicate => 14 case BrokerConstraint => 15 case Geometry => 16
      case BrokerCheck => 17;
    assert CHECKS[k] == r;
  }

  /** A reason is given iff its check fails; an order is issued iff there is none. */
  lemma ReasonIffRejected(r: Reject, p: SignalPlan, profile: Profile, policy: Policy, c: Context)
    requires ValidPlan(p) && ValidContext(c)
    ensures var v := Validate(p, profile, policy, c);
            && (r in v.reasons <==> Rejects(r, p, profile, policy, c))
            && (v.allowed <==> v.reasons == [] && v.order.Some?)
            && (v.allowed ==> !Rejects(r, p, profile, policy, c))
  {
    ReasonsAreTheFailedChecks(|CHECKS|, p, profile, policy, c);
    EveryReasonIsChecked(r);
    assert CHECKS[..|CHECKS|] == CHECKS;
  }

  // ---- Drift ----

  lemma AtLeastRatio(reward: real, risk: real, m: real)
    requires risk > 0.0
    ensures reward / risk >= m <==> reward >= m * risk
  {
    var q := reward / risk;
    assert q * risk == reward;
    if q >= m {
      assert (q - m) * risk >= 0.0;
    } else {
      assert (m - q) * risk > 0.0;
    }
  }

  lemma BelowQuotient(x: real, a: real, b: real)
    requires b > 0.0
    ensures x <= a / b <==> x * b <= a
    ensures a / b <= x <==> a <= x * b
  {
    var q := a / b;
    assert q * b == a;
    if x <= q {
      assert (q - x) * b >= 0.0;
    } else {
      assert (x - q) * b > 0.0;
    }
    if q <= x {
      assert (x - q) * b >= 0.0;
    } else {
      assert (q - x) * b > 0.0;
    }
  }

  /** On the safe side of the boundary is where the minimum ratio is met. */
  lemma BoundaryIsTheRatio(p: SignalPlan, price: real)
    requires p.minimumRr > 0.0
    ensures Along(p.side, price, Boundary(p)) >= 0.0 <==> Reward(p, price) >= p.minimumRr * Risk(p, price)
  {
    BelowQuotient(price, p.target + p.minimumRr * p.stop, 1.0 + p.minimumRr);
    assert price * (1.0 + p.minimumRr) == price + p.minimumRr * price;
    assert p.minimumRr * (price - p.stop) == p.minimumRr * price - p.minimumRr * p.stop;
    assert p.minimumRr * (p.stop - price) == p.minimumRr * p.stop - p.minimumRr * price;
  }

  lemma SameOrderAfterDivision(a: real, b: real, d: real)
    requires d > 0.0
    ensures a / d <= b / d <==> a <= b
  {
    if a <= b {
      DivMonotone(a, b, d);
    } else {
      BelowQuotient(b / d, a, d);
      assert b / d * d == b;
    }
  }

  /** The drift limit and the reward-to-risk test are the same test, for every price between stop and target. */
  lemma DriftLimitIsTheRrTest(p: SignalPlan, price: real)
    requires ValidPlan(p) && Between(p, price)
    ensures !Drifted(p, price) <==> Rr(p, price) >= p.minimumRr
    ensures Rr(p, price) >= p.minimumRr <==> AdverseDriftR(p, price) <= MaximumAdverseDriftR(p)
  {
    AtLeastRatio(Reward(p, price), Risk(p, price), p.minimumRr);
    BoundaryIsTheRatio(p, price);
    EntryIsWithinTheBoundary(p);
    SameOrderAfterDivision(Max(0.0, Along(p.side, p.entry, price)), Max(0.0, Along(p.side, p.entry, Boundary(p))),
      p.plannedRisk);
  }

  lemma EntryIsWithinTheBoundary(p: SignalPlan)
    requires ValidPlan(p)
    ensures Along(p.side, p.entry, Boundary(p)) >= 0.0
  {
    AtLeastRatio(Reward(p, p.entry), Risk(p, p.entry), p.minimumRr);
    BoundaryIsTheRatio(p, p.entry);
  }

  /** The order risks something, and gains at least `m` times as much. */
  predicate KeepsRatio(o: Order, m: real) {
    Along(o.side, o.price, o.target) >= m * Along(o.side, o.stop, o.price) > 0.0
  }

  lemma UndriftedPriceKeepsTheRatio(p: SignalPlan, profile: Profile, price: real)
    requires ValidPlan(p) && Between(p, price) && !Drifted(p, price)
    ensures KeepsRatio(OrderFor(p, profile, price), p.minimumRr)
  {
    AtLeastRatio(Reward(p, price), Risk(p, price), p.minimumRr);
    assert p.minimumRr * Risk(p, price) > 0.0;
  }

  ghost predicate Passes(p: SignalPlan, profile: Profile, policy: Policy, c: Context)
    requires ValidContext(c)
  {
    forall r :: !Rejects(r, p, profile, policy, c)
  }

  /** Allowed means that every check passes. */
  lemma AllowedIffPasses(p: SignalPlan, profile: Profile, policy: Policy, c: Context)
    requires ValidPlan(p) && ValidContext(c)
    ensures Validate(p, profile, policy, c).allowed <==> Passes(p, profile, policy, c)
  {
    forall r ensures r in Validate(p, profile, policy, c).reasons <==> Rejects(r, p, profile, policy, c) {
      ReasonIffRejected(r, p, profile, policy, c);
    }
    var reasons := Validate(p, profile, policy, c).reasons;
    assert reasons != [] ==> reasons[0] in reasons;
  }

  lemma PassedPriceIsFair(p: SignalPlan, profile: Profile, policy: Policy, c: Context)
    requires ValidContext(c) && Passes(p, profile, policy, c)
    ensures var price := Executable(p.side, c.quote);
            Between(p, price) && !Drifted(p, price) && Spread(c.quote) <= p.maximumSpread
  {
    assert !Rejects(Geometry, p, profile, policy, c) && !Rejects(Drift, p, profile, policy, c);
    assert !Rejects(SpreadExceeded, p, profile, policy, c) && !Rejects(PolicyMismatch, p, profile, policy, c);
  }

  /** An allowed order keeps at least the planned minimum ratio at the price it pays. */
  lemma AllowedOrdersKeepTheRatio(p: SignalPlan, profile: Profile, policy: Policy, c: Context)
    requires ValidPlan(p) && ValidContext(c)
    ensures var v, price := Validate(p, profile, policy, c), Executable(p.side, c.quote);
            v.allowed ==>
              && v.order == Some(OrderFor(p, profile, price)) && Between(p, price)
              && KeepsRatio(OrderFor(p, profile, price), p.minimumRr) && Spread(c.quote) <= p.maximumSpread
  {
    AllowedIffPasses(p, profile, policy, c);
    if Passes(p, profile, policy, c) {
      PassedPriceIsFair(p, profile, policy, c);
      UndriftedPriceKeepsTheRatio(p, profile, Executable(p.side, c.quote));
    }
  }

  // ---- Reflection ----

  function Flip(s: Side): Side {
    if s.Buy? then Sell else Buy
  }

  function ReflectPlan(axis: real, p: SignalPlan): SignalPlan {
    p.(side := Flip(p.side), entry := axis - p.entry, stop := axis - p.stop, target := axis - p.target,
      invalidation := axis - p.invalidation)
  }

  function ReflectContext(axis: real, c: Context): Context {
    c.(quote := Tick(c.quote.time, axis - c.quote.ask, axis - c.quote.bid))
  }

  lemma DifferenceIsAligned(a: real, b: real, step: real)
    requires step > 0.0 && Aligned(a, step) && Aligned(b, step)
    ensures Aligned(a - b, step)
  {
    var k := (a / step).Floor - (b / step).Floor;
    assert (a - b) / step == a / step - b / step;
    assert (a - b) / step == k as real;
  }

  /** The axis lies on the tick grid, above every price of the plan and the quote. */
  predicate IsAxis(axis: real, p: SignalPlan, c: Context)
    requires p.tickSize > 0.0
  {
    Aligned(axis, p.tickSize) && axis > p.entry && axis > p.stop && axis > p.target && axis > p.invalidation
      && axis > c.quote.ask
  }

  lemma ReflectedPlanIsValid(axis: real, p: SignalPlan, c: Context)
    requires ValidPlan(p) && IsAxis(axis, p, c)
    ensures ValidPlan(ReflectPlan(axis, p))
  {
    DifferenceIsAligned(axis, p.entry, p.tickSize);
    DifferenceIsAligned(axis, p.stop, p.tickSize);
    DifferenceIsAligned(axis, p.target, p.tickSize);
    DifferenceIsAligned(axis, p.invalidation, p.tickSize);
    assert Abs((axis - p.target) - (axis - p.entry)) == Abs(p.target - p.entry);
  }

  lemma BoundaryReflects(axis: real, p: SignalPlan)
    requires p.minimumRr > 0.0
    ensures Boundary(ReflectPlan(axis, p)) == axis - Boundary(p)
  {
    var m := p.minimumRr;
    var d, a := 1.0 + m, p.target + m * p.stop;
    assert (axis - p.target) + m * (axis - p.stop) == axis * d - a;
    assert a / d * d == a;
    assert (axis - a / d) * d == axis * d - a;
    QuotientIs(axis - a / d, axis * d - a, d);
  }

  lemma FiguresReflect(axis: real, p: SignalPlan, price: real)
    requires p.minimumRr > 0.0 && p.plannedRisk > 0.0
    ensures var q := ReflectPlan(axis, p);
            && Risk(q, axis - price) == Risk(p, price) && Reward(q, axis - price) == Reward(p, price)
            && Rr(q, axis - price) == Rr(p, price)
            && AdverseDriftR(q, axis - price) == AdverseDriftR(p, price)
            && MaximumAdverseDriftR(q) == MaximumAdverseDriftR(p)
  {
    var q := ReflectPlan(axis, p);
    BoundaryReflects(axis, p);
    assert Along(q.side, q.entry, axis - price) == Along(p.side, p.entry, price);
    assert Along(q.side, q.entry, Boundary(q)) == Along(p.side, p.entry, Boundary(p));
    assert Risk(q, axis - price) == Risk(p, price) && Reward(q, axis - price) == Reward(p, price);
  }

  lemma ConstraintsReflect(axis: real, p: SignalPlan, profile: Profile, c: Context, price: real)
    requires ValidPlan(p) && ValidContext(c) && IsAxis(axis, p, c)
    ensures ConstraintsOk(ReflectPlan(axis, p), profile, c.symbol, axis - price) <==>
      ConstraintsOk(p, profile, c.symbol, price)
  {
    ReflectedPlanIsValid(axis, p, c);
    var q := ReflectPlan(axis, p);
    assert Abs((axis - price) - q.stop) == Abs(price - p.stop)
      && Abs(q.target - (axis - price)) == Abs(p.target - price);
  }

  lemma RejectReflects(r: Reject, axis: real, p: SignalPlan, profile: Profile, policy: Policy, c: Context)
    requires ValidPlan(p) && ValidContext(c) && IsAxis(axis, p, c)
    ensures ValidContext(ReflectContext(axis, c))
    ensures Rejects(r, ReflectPlan(axis, p), profile, policy, ReflectContext(axis, c)) <==>
      Rejects(r, p, profile, policy, c)
  {
    var price := Executable(p.side, c.quote);
    assert Executable(Flip(p.side), ReflectContext(axis, c).quote) == axis - price;
    FiguresReflect(axis, p, price);
    ConstraintsReflect(axis, p, profile, c, price);
  }

  lemma {:induction false} ReasonsReflect(n: nat, axis: real, p: SignalPlan, profile: Profile, policy: Policy,
      c: Context)
    requires n <= |CHECKS| && ValidPlan(p) && ValidContext(c) && IsAxis(axis, p, c)
    ensures ValidContext(ReflectContext(axis, c))
    ensures Reasons(n, ReflectPlan(axis, p), profile, policy, ReflectContext(axis, c))
      == Reasons(n, p, profile, policy, c)
  {
    if n > 0 {
      ReasonsReflect(n - 1, axis, p, profile, policy, c);
      RejectReflects(CHECKS[n - 1], axis, p, profile, policy, c);
    }
  }

  /** Buying and selling are mirror images: the verdict and every R figure survive reflection of all prices. */
  lemma VerdictReflects(axis: real, p: SignalPlan, profile: Profile, policy: Policy, c: Context)
    requires ValidPlan(p) && ValidContext(c) && IsAxis(axis, p, c)
    ensures ValidPlan(ReflectPlan(axis, p)) && ValidContext(ReflectContext(axis, c))
    ensures var v, w := Validate(p, profile, policy, c),
      Validate(ReflectPlan(axis, p), profile, policy, ReflectContext(axis, c));
            && w.reasons == v.reasons && w.allowed == v.allowed && w.price == axis - v.price
            && w.adverseDriftR == v.adverseDriftR && w.maximumAdverseDriftR == v.maximumAdverseDriftR
            && w.actualRisk == v.actualRisk && w.actualReward == v.actualReward && w.actualRr == v.actualRr
  {
    ReflectedPlanIsValid(axis, p, c);
    ReasonsReflect(|CHECKS|, axis, p, profile, policy, c);
    FiguresReflect(axis, p, Executable(p.side, c.quote));
  }

  // ---- Limits over a run of accepted orders ----

  /** The exposure once the order is on, as the next validation sees it. */
  function Exposed(e: Exposure, o: Order): Exposure {
    Exposure(e.positionCount + 1, e.totalVolume + o.volume, e.activeSignalIds + {o.signalId})
  }

  predicate WithinLimits(e: Exposure, profile: Profile) {
    && e.positionCount <= profile.maxPositions && e.totalVolume <= profile.maxTotalLot
    && e.positionCount == |e.activeSignalIds|
  }

  lemma PassedExposureHasRoom(p: SignalPlan, profile: Profile, policy: Policy, c: Context)
    requires ValidContext(c) && Passes(p, profile, policy, c)
    ensures c.exposure.positionCount < profile.maxPositions
    ensures c.exposure.totalVolume + p.volume <= profile.maxTotalLot && p.signalId !in c.exposure.activeSignalIds
  {
    assert !Rejects(PositionCount, p, profile, policy, c);
    assert !Rejects(TotalVolume, p, profile, policy, c) && !Rejects(Duplicate, p, profile, policy, c);
  }

  /** Any further accepted order keeps the position, volume and one-order-per-signal limits. */
  lemma AcceptedOrdersKeepTheLimits(p: SignalPlan, profile: Profile, policy: Policy, c: Context)
    requires ValidPlan(p) && ValidContext(c) && WithinLimits(c.exposure, profile)
    ensures var v := Validate(p, profile, policy, c);
            v.allowed ==> v.order.Some? && WithinLimits(Exposed(c.exposure, v.order.value), profile)
  {
    AllowedIffPasses(p, profile, policy, c);
    if Passes(p, profile, policy, c) {
      PassedExposureHasRoom(p, profile, policy, c);
      LimitsAreKept(p, profile, c.exposure, Executable(p.side, c.quote));
    }
  }

  lemma LimitsAreKept(p: SignalPlan, profile: Profile, e: Exposure, price: real)
    requires WithinLimits(e, profile) && e.positionCount < profile.maxPositions
    requires e.totalVolume + p.volume <= profile.maxTotalLot && p.signalId !in e.activeSignalIds
    ensures WithinLimits(Exposed(e, OrderFor(p, profile, price)), profile)
  {
  }
}
