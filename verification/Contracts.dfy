/** The portable engine contracts: ticks, bars and signal plans with their construction invariants. */
module Contracts {
  import opened Prelude

  /** Times are seconds with an explicit offset already applied. */
  datatype Tick = Tick(time: int, bid: real, ask: real)

  predicate ValidTick(t: Tick) {
    0.0 < t.bid <= t.ask
  }

  function Spread(t: Tick): real {
    t.ask - t.bid
  }

  datatype Bar = Bar(openTime: int, closeTime: int, open: real, high: real, low: real, close: real)

  datatype TradeMode = Demo | Real

  datatype SignalPlan = SignalPlan(
    profileId: string, profileVersion: string, profileFingerprint: string,
    signalId: string, side: Side, symbol: string,
    setupCreatedAt: int, entryReadyAt: int, validUntil: int,
    entry: real, stop: real, target: real, plannedRisk: real, invalidation: real,
    maximumSpread: real, minimumRr: real, tickSize: real, volume: real,
    accountLogin: int, accountServer: string, tradeMode: TradeMode, terminalIdentity: string, magic: int)

  /** A whole number of steps. */
  predicate Aligned(value: real, step: real)
    requires step > 0.0
  {
    value / step == (value / step).Floor as real
  }

  /** What construction of a signal plan enforces. */
  predicate ValidPlan(p: SignalPlan) {
    && p.profileId != "" && p.profileVersion != "" && p.profileFingerprint != "" && p.signalId != "" && p.symbol != ""
    && p.accountServer != "" && p.terminalIdentity != ""
    && p.setupCreatedAt <= p.entryReadyAt < p.validUntil
    && p.entry > 0.0 && p.stop > 0.0 && p.target > 0.0 && p.plannedRisk > 0.0 && p.invalidation > 0.0
    && p.tickSize > 0.0 && p.volume > 0.0 && p.maximumSpread >= 0.0 && p.minimumRr > 0.0
    && p.plannedRisk == Abs(p.entry - p.stop)
    && Abs(p.target - p.entry) / p.plannedRisk >= p.minimumRr
    && (if p.side.Buy? then p.stop < p.entry < p.target else p.target < p.entry < p.stop)
    && Aligned(p.entry, p.tickSize) && Aligned(p.stop, p.tickSize)
    && Aligned(p.target, p.tickSize) && Aligned(p.invalidation, p.tickSize)
    && p.accountLogin > 0 && p.magic > 0
  }
}
