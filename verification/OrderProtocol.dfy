/** One polling cycle: from the stop policy through preflight to the order, and the events it leaves behind. */
module OrderProtocol {
  import opened Prelude
  import opened ExecutionBridge

  // ---- Stop policy ----

  datatype StopPolicy = StopPolicy(
    profitTarget: Option<real>, lossLimit: Option<real>, maxDrawdown: Option<real>, maxLosses: Option<int>,
    maxTrades: Option<int>, maxMinutes: Option<real>, minRemaining: Option<real>)

  datatype Performance = Performance(
    realized: real, peak: real, losses: int, trades: int, minutes: real, remaining: Option<real>)

  datatype StopReason =
    ProfitTarget | LossLimit | DrawdownLimit | ConsecutiveLosses | MaxTrades | SessionTimeout | AllocationExhausted

  function EvaluateStopPolicy(policy: StopPolicy, p: Performance): Option<StopReason> {
    if policy.profitTarget.Some? && p.realized >= policy.profitTarget.value then Some(ProfitTarget)
    else if policy.lossLimit.Some? && p.realized <= -Abs(policy.lossLimit.value) then Some(LossLimit)
    else if policy.maxDrawdown.Some? && Max(p.peak - p.realized, 0.0) >= policy.maxDrawdown.value
      then Some(DrawdownLimit)
    else if policy.maxLosses.Some? && p.losses >= policy.maxLosses.value then Some(ConsecutiveLosses)
    else if policy.maxTrades.Some? && p.trades >= policy.maxTrades.value then Some(MaxTrades)
    else if policy.maxMinutes.Some? && p.minutes >= policy.maxMinutes.value then Some(SessionTimeout)
    else if policy.minRemaining.Some? && p.remaining.Some? && p.remaining.value <= policy.minRemaining.value
      then Some(AllocationExhausted)
    else None
  }

  // ---- What a cycle sees ----

  datatype Action = NoTrade | Halt | Open | Add | Reduce | Close | CancelPending

  /** A zero price or volume, and an empty ticket, count as not given. */
  datatype Intent = Intent(
    action: Action, side: Option<Side>, entryPrice: real, payloadVolume: real, positionVolume: real,
    positionTicket: Option<string>, brokerPositionId: Option<string>, orderTicket: Option<string>)

  datatype Fingerprint = Fingerprint(login: string, server: string, broker: string)

  datatype Size = Size(accepted: bool, volume: real)

  datatype Quote = Quote(bid: real, ask: real)

  datatype SendResult = SendResult(
    executionStatus: Option<Status>, accepted: bool, outcomeUnknown: bool,
    order: Option<string>, deal: Option<string>, volume: real, price: real)

  /** Everything the cycle is answered by its surroundings; `None` where the callee raised. */
  datatype World = World(
    polledAt: int, performance: Performance, fingerprint: Option<Fingerprint>, symbol: string, quote: Quote,
    decision: Option<Intent>, sized: Size, guardsPass: bool, precheck: Option<bool>,
    liveQuote: Option<Quote>, recheck: Option<bool>, send: Option<SendResult>)

  datatype Config = Config(policy: StopPolicy, expected: Option<Fingerprint>, fallsBackToNoTrade: bool, allowLive: bool)

  predicate AccountChanged(c: Config, w: World) {
    c.expected.Some? && w.fingerprint.Some? && c.expected != w.fingerprint
  }

  function Decision(c: Config, w: World): Intent {
    match w.decision
    case Some(intent) => intent
    case None => Intent(if c.fallsBackToNoTrade then NoTrade else Halt, None, 0.0, 0.0, 0.0, None, None, None)
  }

  function Nonzero(x: real, otherwise: real): real {
    if x != 0.0 then x else otherwise
  }

  /** Everything but an opening trade skips the risk engine. */
  function LifecycleVolume(intent: Intent): real {
    var volume := Nonzero(intent.payloadVolume, intent.positionVolume);
    if intent.action.CancelPending? then 0.0
    else if intent.action.Add? && volume <= 0.0 then 0.01
    else volume
  }

  function SizeOf(w: World, intent: Intent): Size {
    if intent.action.Open? then w.sized else Size(true, LifecycleVolume(intent))
  }

  // ---- Requests ----

  datatype Request = Request(
    action: Action, orderType: Option<Side>, volume: real, price: real,
    positionTicket: Option<string>, orderTicket: Option<string>)

  function Opposite(s: Side): Side {
    if s.Buy? then Sell else Buy
  }

  function Executable(s: Side, q: Quote): real {
    if s.Buy? then q.ask else q.bid
  }

  function FirstTicket(a: Option<string>, b: Option<string>): Option<string> {
    if a.Some? then a else b
  }

  function BuildOrderRequest(w: World, intent: Intent, volume: real): Request {
    var side := if intent.side.Some? then intent.side.value else Buy;
    if intent.action.CancelPending? then Request(CancelPending, None, 0.0, 0.0, None, intent.orderTicket)
    else
      var requested := Nonzero(intent.payloadVolume, Nonzero(intent.positionVolume, volume));
      if intent.action.Close? || intent.action.Reduce? then
        Request(intent.action, Some(Opposite(side)), requested, Executable(Opposite(side), w.quote),
                FirstTicket(intent.positionTicket, intent.brokerPositionId), None)
      else
        Request(intent.action, Some(side), requested, Nonzero(intent.entryPrice, Executable(side, w.quote)), None, None)
  }

  /** The request at the live price, when the live price is positive. */
  function RefreshLiveRequest(live: Quote, request: Request): Request {
    if request.action.CancelPending? then request
    else
      var price := Executable(if request.orderType.Some? then request.orderType.value else Buy, live);
      if price > 0.0 then request.(price := price) else request
  }

  // ---- Preflight and execution ----

  datatype Preflight = Preflight(status: Status, request: Option<Request>)

  function Validated(answer: Option<bool>, request: Request): Preflight {
    match answer
    case None => Preflight(Error, None)
    case Some(accepted) => Preflight(if accepted then PrecheckOk else PrecheckRejected, Some(request))
  }

  function PreflightOf(w: World, intent: Intent, volume: real): Preflight {
    if intent.action.CancelPending? then Validated(w.precheck, BuildOrderRequest(w, intent, volume))
    else if intent.side.None? then Preflight(Rejected, None)
    else if (intent.action.Open? || intent.action.Add?) && !w.guardsPass then Preflight(GuardRejected, None)
    else Validated(w.precheck, BuildOrderRequest(w, intent, volume))
  }

  datatype Execution = Execution(
    status: Status, order: Option<string>, deal: Option<string>, positionTicket: Option<string>,
    volume: real, realizedPrice: Option<real>)

  const UNKNOWN := OtherStatus("UNKNOWN")
  const PARTIAL := OtherStatus("PARTIAL")
  const APPROVAL_REQUIRED := OtherStatus("APPROVAL_REQUIRED")

  function Unsent(status: Status): Execution {
    Execution(status, None, None, None, 0.0, None)
  }

  function SentStatus(r: SendResult): Status {
    if r.outcomeUnknown then UNKNOWN
    else if r.executionStatus.Some? then r.executionStatus.value
    else if r.accepted then Filled else Rejected
  }

  /** What a send reports about the request that went out. */
  function Report(r: SendResult, request: Request): Execution {
    var status := SentStatus(r);
    Execution(status, r.order, r.deal, request.positionTicket, r.volume,
              if status.Filled? || status == PARTIAL then Some(Nonzero(r.price, request.price)) else None)
  }

  /** The result of executing, and the orders handed to the broker on the way. */
  datatype Fired = Fired(result: Execution, sent: seq<Request>)

  predicate IsTrade(a: Action) {
    !a.NoTrade? && !a.Halt?
  }

  function ExecuteOf(allowLive: bool, w: World, intent: Intent, volume: real, pre: Preflight): Fired
    requires pre.status.PrecheckOk? ==> pre.request.Some?
  {
    if !IsTrade(intent.action) then Fired(Unsent(Rejected), [])
    else if !intent.action.CancelPending? && (intent.side.None? || volume <= 0.0) then Fired(Unsent(Rejected), [])
    else if !pre.status.PrecheckOk? then Fired(Unsent(pre.status), [])
    else if !allowLive then Fired(Execution(DryRunOk, None, None, pre.request.value.positionTicket, volume, None), [])
    else if !pre.request.value.action.CancelPending? && w.liveQuote.None? then Fired(Unsent(Error), [])
    else
      var request := LiveRequest(w, pre.request.value);
      match w.recheck
      case None => Fired(Unsent(Error), [])
      case Some(false) => Fired(Unsent(PrecheckRejected), [])
      case Some(true) => Fired(if w.send.None? then Unsent(Error) else Report(w.send.value, request), [request])
  }

  function LiveRequest(w: World, request: Request): Request {
    if w.liveQuote.Some? then RefreshLiveRequest(w.liveQuote.value, request) else request
  }

  // ---- The records of a cycle ----

  datatype Record = Record(
    attempt: string, phase: Phase, status: Status, order: Option<string>, deal: Option<string>,
    symbol: string, side: Option<Side>, polledAt: int)

  datatype PositionStatus = Opened | Added | Reduced | Closed

  datatype PositionRecord = PositionRecord(
    brokerPositionId: string, deal: Option<string>, symbol: string, side: Option<Side>, volume: real,
    status: PositionStatus, entryPrice: Option<real>, exitPrice: Option<real>)

  datatype StopCode = Policy(reason: StopReason) | ChangedAccount | RequestedByEngine

  datatype Outcome =
    | Halted | Idle | RiskRejected | GuardFailed | PrecheckFailed
    | ApprovalRequired | ExecutionRejected | ExecutionError | Executed(action: Action)

  datatype State = State(
    executions: seq<Record>, positions: seq<PositionRecord>, stops: seq<StopCode>, halted: bool, sent: seq<Request>)

  const START := State([], [], [], false, [])

  function FinalPhase(status: Status): Phase {
    if status.Filled? || status.DryRunOk? || status.Rejected? || status.Error? then Fill else Send
  }

  /** A filled trade leaves one position event. */
  function PositionsOf(w: World, intent: Intent, e: Execution): seq<PositionRecord> {
    if intent.action.CancelPending? || !e.status.Filled? || e.order.None? then []
    else
      var id := FirstTicket(e.positionTicket, FirstTicket(intent.positionTicket, e.order)).value;
      var status := match intent.action case Close => Closed case Reduce => Reduced case Add => Added case _ => Opened;
      [PositionRecord(id, e.deal, w.symbol, intent.side, e.volume, status,
                      if status.Opened? || status.Added? then e.realizedPrice else None,
                      if status.Closed? then e.realizedPrice else None)]
  }

  function OutcomeOf(action: Action, status: Status): Outcome {
    if status == APPROVAL_REQUIRED then ApprovalRequired
    else if status.Rejected? then ExecutionRejected
    else if status.Error? then ExecutionError
    else Executed(action)
  }

  datatype Effect = Effect(
    executions: seq<Record>, positions: seq<PositionRecord>, stops: seq<StopCode>, sent: seq<Request>,
    outcome: Outcome)

  function Stopped(code: StopCode): Effect {
    Effect([], [], [code], [], Halted)
  }

  function RecordOf(w: World, intent: Intent, attempt: string, phase: Phase, status: Status, order: Option<string>,
      deal: Option<string>): Record {
    Record(attempt, phase, status, order, deal, w.symbol, intent.side, w.polledAt)
  }

  function Opening(w: World, intent: Intent, attempt: string, pre: Status): seq<Record> {
    [RecordOf(w, intent, attempt, IntentPhase, Ready, None, None),
     RecordOf(w, intent, attempt, if pre.GuardRejected? then Guard else Precheck, pre, None, None)]
  }

  /** From the intent event on. */
  function TradeOf(c: Config, w: World, intent: Intent, volume: real, attempt: string): Effect {
    var pre := PreflightOf(w, intent, volume);
    var opening := Opening(w, intent, attempt, pre.status);
    if pre.status.GuardRejected? then Effect(opening, [], [], [], GuardFailed)
    else if !pre.status.PrecheckOk? then Effect(opening, [], [], [], PrecheckFailed)
    else
      var fired := ExecuteOf(c.allowLive, w, intent, volume, pre);
      var e := fired.result;
      Effect(opening + [RecordOf(w, intent, attempt, FinalPhase(e.status), e.status, e.order, e.deal)],
             PositionsOf(w, intent, e), [], fired.sent, OutcomeOf(intent.action, e.status))
  }

  function CycleOf(c: Config, w: World, attempt: string): Effect {
    var stop, intent := EvaluateStopPolicy(c.policy, w.performance), Decision(c, w);
    if stop.Some? then Stopped(Policy(stop.value))
    else if AccountChanged(c, w) then Stopped(ChangedAccount)
    else if intent.action.Halt? then Stopped(RequestedByEngine)
    else if intent.action.NoTrade? then Effect([], [], [], [], Idle)
    else if !SizeOf(w, intent).accepted then Effect([], [], [], [], RiskRejected)
    else TradeOf(c, w, intent, SizeOf(w, intent).volume, attempt)
  }

  function Apply(s: State, e: Effect): State {
    State(s.executions + e.executions, s.positions + e.positions, s.stops + e.stops, s.halted || e.outcome.Halted?,
      s.sent + e.sent)
  }

  // ---- The runtime ----

  class ExecutionRuntime {
    const allowLive: bool
    var sent: seq<Request>

    constructor (allowLive: bool)
      ensures this.allowLive == allowLive && sent == []
    {
      this.allowLive, sent := allowLive, [];
    }

    /** Validation comes last, and only for requests that the side check and the guards let through. */
    method RunPreflight(w: World, intent: Intent, volume: real) returns (pre: Preflight)
      ensures pre == PreflightOf(w, intent, volume)
    {
      if intent.action.CancelPending? {
        return Validated(w.precheck, BuildOrderRequest(w, intent, volume));
      }
      if intent.side.None? {
        return Preflight(Rejected, None);
      }
      if intent.action.Open? || intent.action.Add? {
        if !w.guardsPass {
          return Preflight(GuardRejected, None);
        }
      }
      return Validated(w.precheck, BuildOrderRequest(w, intent, volume));
    }

    method Execute(w: World, intent: Intent, volume: real, pre: Preflight) returns (e: Execution)
      requires pre.status.PrecheckOk? ==> pre.request.Some?
      modifies this`sent
      ensures e == ExecuteOf(allowLive, w, intent, volume, pre).result
      ensures sent == old(sent) + ExecuteOf(allowLive, w, intent, volume, pre).sent
    {
      if !IsTrade(intent.action) || (!intent.action.CancelPending? && (intent.side.None? || volume <= 0.0)) {
        return Unsent(Rejected);
      }
      if !pre.status.PrecheckOk? {
        return Unsent(pre.status);
      }
      var request := pre.request.value;
      if !allowLive {
        return Execution(DryRunOk, None, None, request.positionTicket, volume, None);
      }
      if !request.action.CancelPending? && w.liveQuote.None? {
        return Unsent(Error);
      }
      request := LiveRequest(w, request);
      if w.recheck.None? {
        return Unsent(Error);
      }
      if !w.recheck.value {
        return Unsent(PrecheckRejected);
      }
      sent := sent + [request];
      if w.send.None? {
        return Unsent(Error);
      }
      return Report(w.send.value, request);
    }
  }

  class PollingRuntime {
    const config: Config
    const execution: ExecutionRuntime
    var executions: seq<Record>
    var positions: seq<PositionRecord>
    var stops: seq<StopCode>
    var halted: bool

    ghost function View(): State
      reads this, execution
    {
      State(executions, positions, stops, halted, execution.sent)
    }

    ghost predicate Valid()
      reads this
    {
      execution.allowLive == config.allowLive
    }

    constructor (config: Config)
      ensures Valid() && View() == START && this.config == config && fresh(execution)
    {
      this.config := config;
      execution := new ExecutionRuntime(config.allowLive);
      executions, positions, stops, halted := [], [], [], false;
    }

    method Stop(code: StopCode)
      modifies this`stops, this`halted
      ensures stops == old(stops) + [code] && halted
    {
      stops, halted := stops + [code], true;
    }

    method RunCycle(w: World, attempt: string) returns (outcome: Outcome)
      requires Valid()
      modifies this, execution
      ensures Valid()
      ensures View() == Apply(old(View()), CycleOf(config, w, attempt))
      ensures outcome == CycleOf(config, w, attempt).outcome
    {
      var stop := EvaluateStopPolicy(config.policy, w.performance);
      if stop.Some? {
        Stop(Policy(stop.value));
        return Halted;
      }
      if AccountChanged(config, w) {
        Stop(ChangedAccount);
        return Halted;
      }
      var intent := Decision(config, w);
      if intent.action.Halt? {
        Stop(RequestedByEngine);
        return Halted;
      }
      if intent.action.NoTrade? {
        return Idle;
      }
      var size := SizeOf(w, intent);
      if !size.accepted {
        return RiskRejected;
      }
      outcome := Trade(w, intent, size.volume, attempt);
    }

    method Trade(w: World, intent: Intent, volume: real, attempt: string) returns (outcome: Outcome)
      requires Valid()
      modifies this, execution
      ensures Valid()
      ensures View() == Apply(old(View()), TradeOf(config, w, intent, volume, attempt))
      ensures outcome == TradeOf(config, w, intent, volume, attempt).outcome
    {
      executions := executions + [RecordOf(w, intent, attempt, IntentPhase, Ready, None, None)];
      var pre := execution.RunPreflight(w, intent, volume);
      var phase := if pre.status.GuardRejected? then Guard else Precheck;
      executions := executions + [RecordOf(w, intent, attempt, phase, pre.status, None, None)];
      if pre.status.GuardRejected? {
        return GuardFailed;
      }
      if !pre.status.PrecheckOk? {
        return PrecheckFailed;
      }
      var e := execution.Execute(w, intent, volume, pre);
      executions := executions + [RecordOf(w, intent, attempt, FinalPhase(e.status), e.status, e.order, e.deal)];
      positions := positions + PositionsOf(w, intent, e);
      outcome := OutcomeOf(intent.action, e.status);
    }
  }
}
