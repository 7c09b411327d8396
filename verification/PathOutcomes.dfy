/** What a resolved signal says about the prices it met: the outcome over the fields of plan, ticks and bars. */
module PathOutcomes {
  import opened Prelude
  import opened Contracts
  import opened PathResolution

  /** A long position closes at the bid, a short one at the ask. */
  predicate StopsOut(p: SignalPlan, t: Tick) {
    (p.side == Buy && t.bid <= p.stop) || (p.side == Sell && t.ask >= p.stop)
  }

  predicate PaysOut(p: SignalPlan, t: Tick) {
    (p.side == Buy && t.bid >= p.target) || (p.side == Sell && t.ask <= p.target)
  }

  predicate TouchesStop(p: SignalPlan, b: Bar) {
    (p.side == Buy && b.low <= p.stop) || (p.side == Sell && b.high >= p.stop)
  }

  predicate TouchesTarget(p: SignalPlan, b: Bar) {
    (p.side == Buy && b.high >= p.target) || (p.side == Sell && b.low <= p.target)
  }

  /** The first tick from the entry on that stops or pays the position out. */
  ghost predicate IsFirstTick(p: SignalPlan, ticks: seq<Tick>, k: int) {
    && 0 <= k < |ticks| && ticks[k].time >= p.entryReadyAt && (StopsOut(p, ticks[k]) || PaysOut(p, ticks[k]))
    && (forall i :: 0 <= i < k && ticks[i].time >= p.entryReadyAt ==> !StopsOut(p, ticks[i]) && !PaysOut(p, ticks[i]))
  }

  /** The first bar that closes after the entry and touches a level. */
  ghost predicate IsFirstBar(p: SignalPlan, bars: seq<Bar>, k: int) {
    && 0 <= k < |bars| && bars[k].closeTime > p.entryReadyAt && (TouchesStop(p, bars[k]) || TouchesTarget(p, bars[k]))
    && (forall i :: 0 <= i < k && bars[i].closeTime > p.entryReadyAt ==>
          !TouchesStop(p, bars[i]) && !TouchesTarget(p, bars[i]))
  }

  ghost predicate NoTickDecides(p: SignalPlan, ticks: seq<Tick>) {
    forall i :: 0 <= i < |ticks| && ticks[i].time >= p.entryReadyAt ==> !StopsOut(p, ticks[i]) && !PaysOut(p, ticks[i])
  }

  ghost predicate NoBarDecides(p: SignalPlan, bars: seq<Bar>) {
    forall i :: 0 <= i < |bars| && bars[i].closeTime > p.entryReadyAt ==>
      !TouchesStop(p, bars[i]) && !TouchesTarget(p, bars[i])
  }

  /** Ticks decide at the price they close at, and the stop is asked first. */
  lemma TicksDecide(p: SignalPlan, ticks: seq<Tick>, bars: seq<Bar>, k: int)
    requires IsFirstTick(p, ticks, k)
    ensures Resolve(p, ticks, bars)
         == Outcome(p.signalId, if StopsOut(p, ticks[k]) then Stop else Target, Some(ticks[k].time),
                    Some(if p.side == Buy then ticks[k].bid else ticks[k].ask), FromTick)
  {
    var f := FirstTick(p, ticks);
    assert DecidingTick(p, ticks[k]);
    assert forall i :: 0 <= i < k ==> !DecidingTick(p, ticks[i]);
  }

  /** Without a deciding tick the bars decide at the level itself, and a bar that touches both counts as a stop. */
  lemma BarsDecide(p: SignalPlan, ticks: seq<Tick>, bars: seq<Bar>, k: int)
    requires NoTickDecides(p, ticks) && IsFirstBar(p, bars, k)
    ensures Resolve(p, ticks, bars)
         == Outcome(p.signalId, if TouchesStop(p, bars[k]) then Stop else Target, Some(bars[k].closeTime),
                    Some(if TouchesStop(p, bars[k]) then p.stop else p.target), FromBar)
  {
    QuietTicks(p, ticks);
    var f := FirstBar(p, bars);
    assert DecidingBar(p, bars[k]);
    assert forall i :: 0 <= i < k ==> !DecidingBar(p, bars[i]);
  }

  lemma QuietTicks(p: SignalPlan, ticks: seq<Tick>)
    requires NoTickDecides(p, ticks)
    ensures FirstTick(p, ticks) == |ticks|
  {
    var f := FirstTick(p, ticks);
    assert forall i :: 0 <= i < |ticks| ==> !DecidingTick(p, ticks[i]);
  }

  lemma QuietBars(p: SignalPlan, bars: seq<Bar>)
    requires NoBarDecides(p, bars)
    ensures FirstBar(p, bars) == |bars|
  {
    var f := FirstBar(p, bars);
    assert forall i :: 0 <= i < |bars| ==> !DecidingBar(p, bars[i]);
  }

  /** With neither, the signal is open when anything came after its entry, and else it has no path. */
  lemma NothingDecides(p: SignalPlan, ticks: seq<Tick>, bars: seq<Bar>)
    requires NoTickDecides(p, ticks) && NoBarDecides(p, bars)
    ensures var seen := (exists i :: 0 <= i < |ticks| && ticks[i].time >= p.entryReadyAt)
                        || (exists i :: 0 <= i < |bars| && bars[i].closeTime > p.entryReadyAt);
            Resolve(p, ticks, bars)
            == Outcome(p.signalId, if seen then Open else NoPostEntryPath, None, None,
                       if seen then Unresolved else Nowhere)
  {
    QuietTicks(p, ticks);
    QuietBars(p, bars);
  }

  /** One of the three always applies. */
  lemma SomethingOrNothingDecides(p: SignalPlan, ticks: seq<Tick>, bars: seq<Bar>)
    ensures NoTickDecides(p, ticks) <==> !exists k :: IsFirstTick(p, ticks, k)
    ensures NoBarDecides(p, bars) <==> !exists k :: IsFirstBar(p, bars, k)
  {
    var f, g := FirstTick(p, ticks), FirstBar(p, bars);
    if f < |ticks| {
      assert forall i :: 0 <= i < f ==> !DecidingTick(p, ticks[i]);
      assert IsFirstTick(p, ticks, f);
    } else {
      assert forall i :: 0 <= i < |ticks| ==> !DecidingTick(p, ticks[i]);
    }
    if g < |bars| {
      assert forall i :: 0 <= i < g ==> !DecidingBar(p, bars[i]);
      assert IsFirstBar(p, bars, g);
    } else {
      assert forall i :: 0 <= i < |bars| ==> !DecidingBar(p, bars[i]);
    }
  }
}
