/** The shipped decision engine in the polling cycle: what a parsed response can and cannot make the runtime send. */
module EngineDecisions {
  import opened Prelude
  import opened OrderProtocol
  import opened OrderProtocolTheorems
  import opened DecisionContract

  /** A parsed decision as the runtime sees it: its payload holds the response text and nothing else. */
  function IntentOf(d: Decided): Intent {
    Intent(d.action, d.side, 0.0, 0.0, 0.0, None, None, None)
  }

  /** The decision of a cycle is what `ParseResponse` made of the response; a contract error raises. */
  predicate DecidedBy(w: World, p: Parsed) {
    w.decision == if p.Accepted? then Some(IntentOf(p.intent)) else None
  }

  /**
   * Orders that a model response can cause: openings at the sized volume, additions at the fixed 0.01, and
   * cancellations that name no order. Nothing is ever closed or reduced, because no volume reaches those orders.
   */
  lemma ResponsesOpenAddOrCancel(c: Config, w: World, attempt: string, p: Parsed)
    requires DecidedBy(w, p) && CycleOf(c, w, attempt).sent != []
    ensures p.Accepted? && CycleOf(c, w, attempt).sent[0].action == p.intent.action
    ensures var d, r := p.intent, CycleOf(c, w, attempt).sent[0];
            match r.action
            case Open => r.volume == w.sized.volume && r.volume > 0.0 && r.orderType == d.side
            case Add => r.volume == 0.01 && r.orderType == d.side
            case CancelPending => r.orderTicket.None?
            case _ => false
  {
    SendsExactlyWhenAllowed(c, w, attempt);
  }

  /** A response that asks to close or to reduce is turned down whatever the broker and the guards answer. */
  lemma ClosingResponsesAreRefused(c: Config, w: World, attempt: string, p: Parsed)
    requires DecidedBy(w, p) && p.Accepted? && (p.intent.action.Close? || p.intent.action.Reduce?)
    ensures var e := CycleOf(c, w, attempt);
            && e.sent == [] && e.positions == []
            && (e.executions != [] ==> !Fills(e.executions[|e.executions| - 1]))
  {
    SendsExactlyWhenAllowed(c, w, attempt);
  }
}
