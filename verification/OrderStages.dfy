/** Where a polling cycle ends and what it leaves behind, over the fields of policy, account, intent and answers. */
module OrderStages {
  import opened Prelude
  import opened ExecutionBridge
  import opened OrderProtocol
  import opened OrderProtocolTheorems

  // ---- The stop policy ----

  /** A configured limit has been reached; the sign of a loss limit does not matter. */
  predicate IsReached(reason: StopReason, policy: StopPolicy, p: Performance) {
    match reason
    case ProfitTarget => policy.profitTarget != None && policy.profitTarget.value <= p.realized
    case LossLimit =>
      policy.lossLimit != None && p.realized <= policy.lossLimit.value && p.realized <= -policy.lossLimit.value
    case DrawdownLimit =>
      && policy.maxDrawdown != None
      && (p.peak >= p.realized + policy.maxDrawdown.value || policy.maxDrawdown.value <= 0.0)
    case ConsecutiveLosses => policy.maxLosses != None && policy.maxLosses.value <= p.losses
    case MaxTrades => policy.maxTrades != None && policy.maxTrades.value <= p.trades
    case SessionTimeout => policy.maxMinutes != None && policy.maxMinutes.value <= p.minutes
    case AllocationExhausted =>
      policy.minRemaining != None && p.remaining != None && p.remaining.value <= policy.minRemaining.value
  }

  function Place(reason: StopReason): nat {
    match reason
    case ProfitTarget => 0 case LossLimit => 1 case DrawdownLimit => 2 case ConsecutiveLosses => 3
    case MaxTrades => 4 case SessionTimeout => 5 case AllocationExhausted => 6
  }

  ghost predicate IsFirstReached(reason: StopReason, policy: StopPolicy, p: Performance) {
    && IsReached(reason, policy, p)
    && (forall other :: Place(other) < Place(reason) ==> !IsReached(other, policy, p))
  }

  ghost predicate AllLimitsOpen(policy: StopPolicy, p: Performance) {
    forall reason :: !IsReached(reason, policy, p)
  }

  lemma StopIsReached(policy: StopPolicy, p: Performance)
    ensures var stop := EvaluateStopPolicy(policy, p);
            forall reason :: IsReached(reason, policy, p) ==> stop != None && Place(stop.value) <= Place(reason)
    ensures var stop := EvaluateStopPolicy(policy, p);
            stop != None ==> IsReached(stop.value, policy, p)
  {
  }

  lemma PolicyStopsAtTheFirstReached(policy: StopPolicy, p: Performance)
    ensures EvaluateStopPolicy(policy, p) == None <==> AllLimitsOpen(policy, p)
    ensures forall reason :: EvaluateStopPolicy(policy, p) == Some(reason) <==> IsFirstReached(reason, policy, p)
  {
    StopIsReached(policy, p);
    var stop := EvaluateStopPolicy(policy, p);
    forall reason ensures stop == Some(reason) <==> IsFirstReached(reason, policy, p) {
      if IsFirstReached(reason, policy, p) {
        assert Place(stop.value) == Place(reason);
      }
    }
  }

  /** A cycle halts by policy exactly when a limit is reached: its one record is the first such reason. */
  lemma PolicyHaltsAtTheFirstReached(c: Config, w: World, attempt: string, reason: StopReason)
    ensures CycleOf(c, w, attempt).stops == [Policy(reason)] <==> IsFirstReached(reason, c.policy, w.performance)
    ensures !AllLimitsOpen(c.policy, w.performance) ==>
              var e := CycleOf(c, w, attempt);
              && e.outcome == Halted && |e.stops| == 1 && e.stops[0].Policy?
              && e.executions == [] && e.positions == [] && e.sent == []
  {
    PolicyStopsAtTheFirstReached(c.policy, w.performance);
  }

  // ---- The gates ----

  predicate SameAccount(expected: Option<Fingerprint>, observed: Option<Fingerprint>) {
    || expected == None || observed == None
    || (expected.value.login == observed.value.login && expected.value.server == observed.value.server
        && expected.value.broker == observed.value.broker)
  }

  /** The cycle gets as far as asking the engine. */
  ghost predicate Decides(c: Config, w: World) {
    AllLimitsOpen(c.policy, w.performance) && SameAccount(c.expected, w.fingerprint)
  }

  predicate AsksToHalt(c: Config, w: World) {
    if w.decision == None then !c.fallsBackToNoTrade else w.decision.value.action == Halt
  }

  predicate AsksToWait(c: Config, w: World) {
    if w.decision == None then c.fallsBackToNoTrade else w.decision.value.action == NoTrade
  }

  ghost predicate AsksToTrade(c: Config, w: World) {
    && Decides(c, w) && w.decision != None
    && w.decision.value.action in {Open, Add, Reduce, Close, CancelPending}
  }

  /** The risk engine only has a say in opening. */
  ghost predicate Attempts(c: Config, w: World) {
    AsksToTrade(c, w) && (w.decision.value.action == Open ==> w.sized.accepted)
  }

  /** Only opening and adding are guarded, and only with a side. */
  predicate IsGuarded(w: World, intent: Intent) {
    intent.side != None && intent.action in {Open, Add} && !w.guardsPass
  }

  /** Cancelling needs no side. */
  predicate IsPrechecked(w: World, intent: Intent) {
    (intent.side != None || intent.action == CancelPending) && w.precheck == Some(true)
  }

  /** Where a cycle ends before it attempts anything. */
  lemma CyclesEndEarly(c: Config, w: World, attempt: string)
    ensures var e := CycleOf(c, w, attempt);
            && (e.stops == [ChangedAccount] <==>
                  AllLimitsOpen(c.policy, w.performance) && !SameAccount(c.expected, w.fingerprint))
            && (e.stops == [RequestedByEngine] <==> Decides(c, w) && AsksToHalt(c, w))
            && (e.outcome == Halted <==> e.stops != []) && |e.stops| <= 1
            && (e.outcome == Idle <==> Decides(c, w) && AsksToWait(c, w))
            && (e.outcome == RiskRejected <==> AsksToTrade(c, w) && !Attempts(c, w))
            && (e.executions != [] <==> Attempts(c, w))
  {
    PolicyStopsAtTheFirstReached(c.policy, w.performance);
    AccountsAreCompared(c, w);
  }

  lemma AccountsAreCompared(c: Config, w: World)
    ensures AccountChanged(c, w) <==> !SameAccount(c.expected, w.fingerprint)
  {
  }

  lemma AttemptsAreTrades(c: Config, w: World, attempt: string)
    requires Attempts(c, w)
    ensures var intent := w.decision.value;
            CycleOf(c, w, attempt) == TradeOf(c, w, intent, SizeOf(w, intent).volume, attempt)
  {
    PolicyStopsAtTheFirstReached(c.policy, w.performance);
    AccountsAreCompared(c, w);
  }

  function PreflightStatus(w: World, intent: Intent): Status {
    if IsGuarded(w, intent) then GuardRejected
    else if IsPrechecked(w, intent) then PrecheckOk
    else if intent.side == None && intent.action != CancelPending then Rejected
    else if w.precheck == None then Error
    else PrecheckRejected
  }

  lemma PreflightSays(w: World, intent: Intent, volume: real)
    requires IsTrade(intent.action)
    ensures PreflightOf(w, intent, volume).status == PreflightStatus(w, intent)
  {
  }

  predicate IsRowOf(r: Record, w: World, intent: Intent, attempt: string) {
    r.attempt == attempt && r.symbol == w.symbol && r.side == intent.side && r.polledAt == w.polledAt
  }

  /** Every attempt leaves its intent and what preflight said; one that ends there leaves nothing else. */
  lemma AttemptsEndInPreflight(c: Config, w: World, attempt: string)
    requires Attempts(c, w)
    ensures var e, intent := CycleOf(c, w, attempt), w.decision.value;
            && (e.outcome == GuardFailed <==> IsGuarded(w, intent))
            && (e.outcome == PrecheckFailed <==> !IsGuarded(w, intent) && !IsPrechecked(w, intent))
            && |e.executions| == (if e.outcome in {GuardFailed, PrecheckFailed} then 2 else 3)
            && (e.outcome in {GuardFailed, PrecheckFailed} ==> e.positions == [] && e.sent == [])
            && e.executions[0].phase == IntentPhase && e.executions[0].status == Ready
            && e.executions[1].phase == (if e.outcome == GuardFailed then Guard else Precheck)
            && e.executions[1].status == PreflightStatus(w, intent)
            && (forall r :: r in e.executions ==> IsRowOf(r, w, intent, attempt))
  {
    AttemptsAreTrades(c, w, attempt);
    TradesEndInPreflight(c, w, w.decision.value, SizeOf(w, w.decision.value).volume, attempt);
  }

  lemma TradesEndInPreflight(c: Config, w: World, intent: Intent, volume: real, attempt: string)
    requires IsTrade(intent.action)
    ensures var e := TradeOf(c, w, intent, volume, attempt);
            && (e.outcome == GuardFailed <==> IsGuarded(w, intent))
            && (e.outcome == PrecheckFailed <==> !IsGuarded(w, intent) && !IsPrechecked(w, intent))
            && |e.executions| == (if e.outcome in {GuardFailed, PrecheckFailed} then 2 else 3)
            && (e.outcome in {GuardFailed, PrecheckFailed} ==> e.positions == [] && e.sent == [])
            && e.executions[0].phase == IntentPhase && e.executions[0].status == Ready
            && e.executions[1].phase == (if e.outcome == GuardFailed then Guard else Precheck)
            && e.executions[1].status == PreflightStatus(w, intent)
            && (forall r :: r in e.executions ==> IsRowOf(r, w, intent, attempt))
  {
    PreflightSays(w, intent, volume);
  }

  // ---- The request ----

  /** The volume that the intent names, if any: a zero names none. */
  function NamedVolume(intent: Intent, otherwise: real): real {
    if intent.payloadVolume != 0.0 then intent.payloadVolume
    else if intent.positionVolume != 0.0 then intent.positionVolume
    else otherwise
  }

  /** The sized volume: the risk engine's for opening, nothing to cancel, and a fixed 0.01 to add without a volume. */
  lemma SizedVolumeIs(w: World, intent: Intent)
    ensures SizeOf(w, intent).volume
         == match intent.action
            case Open => w.sized.volume
            case CancelPending => 0.0
            case Add => if NamedVolume(intent, 0.0) > 0.0 then NamedVolume(intent, 0.0) else 0.01
            case _ => NamedVolume(intent, 0.0)
  {
  }

  predicate IsClosing(intent: Intent) {
    intent.action in {Close, Reduce}
  }

  /** Whether the order buys: opening and adding on the buy side, closing and reducing on the sell side. */
  predicate Buys(intent: Intent) {
    intent.side == Some(if IsClosing(intent) then Sell else Buy)
  }

  /** The planned price: that of the intent when it opens at one, else the one at hand. */
  function PlannedPrice(w: World, intent: Intent): real {
    if !IsClosing(intent) && intent.entryPrice != 0.0 then intent.entryPrice
    else if Buys(intent) then w.quote.ask else w.quote.bid
  }

  function LivePrice(w: World, intent: Intent): real
    requires w.liveQuote != None
  {
    if Buys(intent) then w.liveQuote.value.ask else w.liveQuote.value.bid
  }

  /** Every field of an order that leaves a cycle. */
  lemma SentOrderIs(c: Config, w: World, attempt: string)
    requires CycleOf(c, w, attempt).sent != []
    ensures w.decision != None && |CycleOf(c, w, attempt).sent| == 1
    ensures var intent, r := w.decision.value, CycleOf(c, w, attempt).sent[0];
            && r.action == intent.action
            && (intent.action == CancelPending ==>
                  r == Request(CancelPending, None, 0.0, 0.0, None, intent.orderTicket))
            && (intent.action != CancelPending ==>
                  && intent.side != None && w.liveQuote != None && r.orderTicket == None
                  && r.orderType == Some(if Buys(intent) then Buy else Sell)
                  && r.volume == NamedVolume(intent, SizeOf(w, intent).volume)
                  && r.price == (if LivePrice(w, intent) > 0.0 then LivePrice(w, intent) else PlannedPrice(w, intent))
                  && r.positionTicket == (if !IsClosing(intent) then None
                                          else if intent.positionTicket != None then intent.positionTicket
                                          else intent.brokerPositionId))
  {
    SendsExactlyWhenAllowed(c, w, attempt);
  }

  /** An order leaves a cycle exactly when every limit is open and every answer on the way allows it. */
  lemma OrdersLeaveIff(c: Config, w: World, attempt: string)
    ensures CycleOf(c, w, attempt).sent != [] <==>
              && Attempts(c, w) && !IsGuarded(w, w.decision.value) && IsPrechecked(w, w.decision.value)
              && c.allowLive && w.recheck == Some(true)
              && (w.decision.value.action != CancelPending ==>
                    w.liveQuote != None && SizeOf(w, w.decision.value).volume > 0.0)
  {
    SendsExactlyWhenAllowed(c, w, attempt);
    PolicyStopsAtTheFirstReached(c.policy, w.performance);
    AccountsAreCompared(c, w);
  }

  /** So a sent order means that no configured limit was reached. */
  lemma SentOrdersKeepEveryLimit(c: Config, w: World, attempt: string, reason: StopReason)
    requires CycleOf(c, w, attempt).sent != []
    ensures !IsReached(reason, c.policy, w.performance)
  {
    OrdersLeaveIff(c, w, attempt);
  }

  // ---- The result ----

  /** What the broker's answer to a sent order comes down to. */
  function AnswerStatus(send: Option<SendResult>): Status {
    if send == None then Error
    else if send.value.outcomeUnknown then OtherStatus("UNKNOWN")
    else if send.value.executionStatus != None then send.value.executionStatus.value
    else if send.value.accepted then Filled
    else Rejected
  }

  function ResultStatus(c: Config, w: World, intent: Intent): Status {
    var cancels := intent.action == CancelPending;
    if !cancels && SizeOf(w, intent).volume <= 0.0 then Rejected
    else if !c.allowLive then DryRunOk
    else if (!cancels && w.liveQuote == None) || w.recheck == None then Error
    else if w.recheck == Some(false) then PrecheckRejected
    else AnswerStatus(w.send)
  }

  /** The last row of an attempt that passes preflight, and the outcome it gives the cycle. */
  lemma AttemptsEndInTheirResult(c: Config, w: World, attempt: string)
    requires Attempts(c, w) && !IsGuarded(w, w.decision.value) && IsPrechecked(w, w.decision.value)
    ensures var e, intent := CycleOf(c, w, attempt), w.decision.value;
            && |e.executions| == 3
            && var row := e.executions[2];
               && row.status == ResultStatus(c, w, intent)
               && row.phase == (if row.status in {Filled, DryRunOk, Rejected, Error} then Fill else Send)
               && row.order == (if e.sent != [] && w.send != None then w.send.value.order else None)
               && row.deal == (if e.sent != [] && w.send != None then w.send.value.deal else None)
               && e.outcome == (match row.status
                                case OtherStatus("APPROVAL_REQUIRED") => ApprovalRequired
                                case Rejected => ExecutionRejected
                                case Error => ExecutionError
                                case _ => Executed(intent.action))
  {
    AttemptsAreTrades(c, w, attempt);
    TradesEndInTheirResult(c, w, w.decision.value, SizeOf(w, w.decision.value).volume, attempt);
  }

  lemma TradesEndInTheirResult(c: Config, w: World, intent: Intent, volume: real, attempt: string)
    requires IsTrade(intent.action) && !IsGuarded(w, intent) && IsPrechecked(w, intent)
    requires volume == SizeOf(w, intent).volume
    ensures var e, fired := TradeOf(c, w, intent, volume, attempt),
                            ExecuteOf(c.allowLive, w, intent, volume, PreflightOf(w, intent, volume));
            && |e.executions| == 3 && e.sent == fired.sent && e.outcome == OutcomeOf(intent.action, fired.result.status)
            && e.positions == PositionsOf(w, intent, fired.result)
            && var row := e.executions[2];
               && row.status == fired.result.status == ResultStatus(c, w, intent)
               && row.phase == (if row.status in {Filled, DryRunOk, Rejected, Error} then Fill else Send)
               && row.order == fired.result.order && row.deal == fired.result.deal
               && row.order == (if e.sent != [] && w.send != None then w.send.value.order else None)
               && row.deal == (if e.sent != [] && w.send != None then w.send.value.deal else None)
  {
    PreflightSays(w, intent, volume);
  }

  /** The price a fill is booked at: the reported one, or that of the order when none is reported. */
  function BookedPrice(send: SendResult, request: Request): real {
    if send.price != 0.0 then send.price else request.price
  }

  /** Every field of the position event of a cycle. */
  lemma PositionEventIs(c: Config, w: World, attempt: string)
    requires CycleOf(c, w, attempt).positions != []
    ensures var e := CycleOf(c, w, attempt);
            && w.decision != None && |e.positions| == 1 && |e.sent| == 1 && w.send != None
            && w.send.value.order != None && w.decision.value.action in {Open, Add, Reduce, Close}
    ensures var e, intent, send := CycleOf(c, w, attempt), w.decision.value, w.send.value;
            var p, price := e.positions[0], BookedPrice(send, e.sent[0]);
            && p.symbol == w.symbol && p.side == intent.side && p.deal == send.deal && p.volume == send.volume
            && p.status == (match intent.action
                            case Close => Closed case Reduce => Reduced case Add => Added case _ => Opened)
            && p.entryPrice == (if IsClosing(intent) then None else Some(price))
            && p.exitPrice == (if intent.action == Close then Some(price) else None)
            && p.brokerPositionId == (if e.sent[0].positionTicket != None then e.sent[0].positionTicket.value
                                      else if intent.positionTicket != None then intent.positionTicket.value
                                      else send.order.value)
  {
  }

  // ---- A run keeps every cycle ----

  /** The `part` that a cycle left, found in the `whole` that the run left, behind what was there `before`. */
  ghost predicate IsKept<T>(whole: seq<T>, before: seq<T>, part: seq<T>) {
    |before| + |part| <= |whole| && whole[..|before|] == before && whole[|before|..|before| + |part|] == part
  }

  ghost predicate KeepsAll(s: State, before: State, e: Effect) {
    && IsKept(s.executions, before.executions, e.executions) && IsKept(s.positions, before.positions, e.positions)
    && IsKept(s.stops, before.stops, e.stops) && IsKept(s.sent, before.sent, e.sent)
  }

  lemma KeptFurther<T>(whole: seq<T>, before: seq<T>, part: seq<T>, more: seq<T>)
    requires IsKept(whole, before, part)
    ensures IsKept(whole + more, before, part)
  {
    assert (whole + more)[..|before|] == whole[..|before|];
    assert (whole + more)[|before|..|before| + |part|] == whole[|before|..|before| + |part|];
  }

  lemma ApplyKeeps(s: State, before: State, e: Effect, next: Effect)
    requires KeepsAll(s, before, e)
    ensures KeepsAll(Apply(s, next), before, e)
  {
    KeptFurther(s.executions, before.executions, e.executions, next.executions);
    KeptFurther(s.positions, before.positions, e.positions, next.positions);
    KeptFurther(s.stops, before.stops, e.stops, next.stops);
    KeptFurther(s.sent, before.sent, e.sent, next.sent);
  }

  /** What the cycle left is in the state, behind what was there before it, and a halt is remembered. */
  ghost predicate IsRemembered(c: Config, w: World, attempt: string, before: State, s: State) {
    KeepsAll(s, before, CycleOf(c, w, attempt)) && (CycleOf(c, w, attempt).outcome == Halted ==> s.halted)
  }

  lemma ApplyStores(s: State, e: Effect)
    ensures KeepsAll(Apply(s, e), s, e)
  {
    Stored(s.executions, e.executions);
    Stored(s.positions, e.positions);
    Stored(s.stops, e.stops);
    Stored(s.sent, e.sent);
  }

  lemma Stored<T>(before: seq<T>, part: seq<T>)
    ensures IsKept(before + part, before, part)
  {
  }

  lemma RememberedFurther(c: Config, w: World, attempt: string, before: State, s: State, next: Effect)
    requires IsRemembered(c, w, attempt, before, s)
    ensures IsRemembered(c, w, attempt, before, Apply(s, next))
  {
    ApplyKeeps(s, before, CycleOf(c, w, attempt), next);
  }

  lemma LastIsRemembered(c: Config, w: World, attempt: string, before: State)
    ensures IsRemembered(c, w, attempt, before, Apply(before, CycleOf(c, w, attempt)))
  {
    ApplyStores(before, CycleOf(c, w, attempt));
  }

  lemma RunSteps(c: Config, ws: seq<World>, attempts: seq<string>, n: nat)
    requires |ws| == |attempts| == n + 1
    ensures RunOf(c, ws, attempts) == Apply(RunOf(c, ws[..n], attempts[..n]), CycleOf(c, ws[n], attempts[n]))
  {
  }

  /** Whatever a cycle leaves stays where it was put, and a run is halted once one of its cycles halts. */
  lemma {:induction false} RunsRememberEveryCycle(c: Config, ws: seq<World>, attempts: seq<string>, k: nat)
    requires |ws| == |attempts| && k < |ws|
    ensures IsRemembered(c, ws[k], attempts[k], RunOf(c, ws[..k], attempts[..k]), RunOf(c, ws, attempts))
  {
    var n := |ws| - 1;
    RunSteps(c, ws, attempts, n);
    if k < n {
      RunsRememberEveryCycle(c, ws[..n], attempts[..n], k);
      assert ws[..n][..k] == ws[..k] && attempts[..n][..k] == attempts[..k];
      RememberedFurther(c, ws[k], attempts[k], RunOf(c, ws[..k], attempts[..k]), RunOf(c, ws[..n], attempts[..n]),
                        CycleOf(c, ws[n], attempts[n]));
    } else {
      LastIsRemembered(c, ws[n], attempts[n], RunOf(c, ws[..n], attempts[..n]));
    }
  }

  /** Nothing else is in it: a run has as many records, positions, stops and orders as its cycles left. */
  lemma {:induction false} RunsAddNothing(c: Config, ws: seq<World>, attempts: seq<string>)
    requires |ws| == |attempts| && ws != []
    ensures var n, s := |ws| - 1, RunOf(c, ws, attempts);
            var before, e := RunOf(c, ws[..n], attempts[..n]), CycleOf(c, ws[n], attempts[n]);
            && |s.executions| == |before.executions| + |e.executions|
            && |s.positions| == |before.positions| + |e.positions|
            && |s.stops| == |before.stops| + |e.stops| && |s.sent| == |before.sent| + |e.sent|
            && (s.halted ==> before.halted || e.outcome == Halted)
  {
  }
}
