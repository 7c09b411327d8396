/** First-touch resolution of a signal over ticks, its conservative bar version, and how the two relate. */
module PathResolution {
  import opened Prelude
  import opened Contracts

  datatype Result = Target | Stop | Open | NoPostEntryPath

  datatype Source = FromTick | FromBar | Unresolved | Nowhere

  datatype Outcome = Outcome(
    signalId: string, result: Result, resolvedAt: Option<int>, resolvedPrice: Option<real>, source: Source)

  /** The price at which a position of this side is closed. */
  function ExitPrice(p: SignalPlan, t: Tick): real {
    if p.side.Buy? then t.bid else t.ask
  }

  predicate StopAt(p: SignalPlan, price: real) {
    if p.side.Buy? then price <= p.stop else price >= p.stop
  }

  predicate TargetAt(p: SignalPlan, price: real) {
    if p.side.Buy? then price >= p.target else price <= p.target
  }

  predicate DecidingTick(p: SignalPlan, t: Tick) {
    t.time >= p.entryReadyAt && (StopAt(p, ExitPrice(p, t)) || TargetAt(p, ExitPrice(p, t)))
  }

  /** The bar's extreme on the stop side and on the target side. */
  predicate BarStops(p: SignalPlan, b: Bar) {
    StopAt(p, if p.side.Buy? then b.low else b.high)
  }

  predicate BarTargets(p: SignalPlan, b: Bar) {
    TargetAt(p, if p.side.Buy? then b.high else b.low)
  }

  predicate DecidingBar(p: SignalPlan, b: Bar) {
    b.closeTime > p.entryReadyAt && (BarStops(p, b) || BarTargets(p, b))
  }

  function FirstTick(p: SignalPlan, ticks: seq<Tick>): (k: nat)
    ensures k <= |ticks|
    ensures k < |ticks| ==> DecidingTick(p, ticks[k])
    ensures forall i :: 0 <= i < k ==> !DecidingTick(p, ticks[i])
  {
    if ticks == [] || DecidingTick(p, ticks[0]) then 0 else 1 + FirstTick(p, ticks[1..])
  }

  function FirstBar(p: SignalPlan, bars: seq<Bar>): (k: nat)
    ensures k <= |bars|
    ensures k < |bars| ==> DecidingBar(p, bars[k])
    ensures forall i :: 0 <= i < k ==> !DecidingBar(p, bars[i])
  {
    if bars == [] || DecidingBar(p, bars[0]) then 0 else 1 + FirstBar(p, bars[1..])
  }

  predicate HasPath(p: SignalPlan, ticks: seq<Tick>, bars: seq<Bar>) {
    || (exists i :: 0 <= i < |ticks| && ticks[i].time >= p.entryReadyAt)
    || (exists i :: 0 <= i < |bars| && bars[i].closeTime > p.entryReadyAt)
  }

  /** Ticks decide before bars do; inside either the stop wins. */
  function Resolve(p: SignalPlan, ticks: seq<Tick>, bars: seq<Bar>): Outcome {
    var k, j := FirstTick(p, ticks), FirstBar(p, bars);
    if k < |ticks| then
      var price := ExitPrice(p, ticks[k]);
      Outcome(p.signalId, if StopAt(p, price) then Stop else Target, Some(ticks[k].time), Some(price), FromTick)
    else if j < |bars| then
      var stopped := BarStops(p, bars[j]);
      Outcome(p.signalId, if stopped then Stop else Target, Some(bars[j].closeTime),
              Some(if stopped then p.stop else p.target), FromBar)
    else if HasPath(p, ticks, bars) then Outcome(p.signalId, Open, None, None, Unresolved)
    else Outcome(p.signalId, NoPostEntryPath, None, None, Nowhere)
  }

  method ResolveSignalPath(p: SignalPlan, ticks: seq<Tick>, bars: seq<Bar>) returns (outcome: Outcome)
    ensures outcome == Resolve(p, ticks, bars)
  {
    var seen := false;
    for n := 0 to |ticks|
      invariant n <= FirstTick(p, ticks)
      invariant seen <==> exists i :: 0 <= i < n && ticks[i].time >= p.entryReadyAt
    {
      var item := ticks[n];
      if item.time < p.entryReadyAt {
        continue;
      }
      seen := true;
      var price := ExitPrice(p, item);
      if StopAt(p, price) {
        return Outcome(p.signalId, Stop, Some(item.time), Some(price), FromTick);
      }
      if TargetAt(p, price) {
        return Outcome(p.signalId, Target, Some(item.time), Some(price), FromTick);
      }
    }
    for n := 0 to |bars|
      invariant n <= FirstBar(p, bars)
      invariant seen <==>
        || (exists i :: 0 <= i < |ticks| && ticks[i].time >= p.entryReadyAt)
        || (exists i :: 0 <= i < n && bars[i].closeTime > p.entryReadyAt)
    {
      var bar := bars[n];
      if bar.closeTime <= p.entryReadyAt {
        continue;
      }
      seen := true;
      if BarStops(p, bar) {
        return Outcome(p.signalId, Stop, Some(bar.closeTime), Some(p.stop), FromBar);
      }
      if BarTargets(p, bar) {
        return Outcome(p.signalId, Target, Some(bar.closeTime), Some(p.target), FromBar);
      }
    }
    if seen {
      return Outcome(p.signalId, Open, None, None, Unresolved);
    }
    return Outcome(p.signalId, NoPostEntryPath, None, None, Nowhere);
  }

  // ---- Bars made of ticks ----

  predicate Within(t: Tick, b: Bar) {
    b.openTime <= t.time < b.closeTime
  }

  /** The bar's range is exactly the range of the closing-side price over its ticks. */
  ghost predicate Summarizes(p: SignalPlan, b: Bar, ticks: seq<Tick>) {
    && (forall i :: 0 <= i < |ticks| && Within(ticks[i], b) ==> b.low <= ExitPrice(p, ticks[i]) <= b.high)
    && (exists i :: 0 <= i < |ticks| && Within(ticks[i], b) && ExitPrice(p, ticks[i]) == b.low)
    && (exists i :: 0 <= i < |ticks| && Within(ticks[i], b) && ExitPrice(p, ticks[i]) == b.high)
  }

  ghost predicate TicksAscend(ticks: seq<Tick>) {
    forall i, j :: 0 <= i < j < |ticks| ==> ticks[i].time < ticks[j].time
  }

  ghost predicate BarsFollow(bars: seq<Bar>) {
    forall i, j :: 0 <= i < j < |bars| ==> bars[i].closeTime <= bars[j].openTime
  }

  /** The bars are consecutive, cover every tick after entry, and summarize their ticks. */
  ghost predicate BarsOf(p: SignalPlan, ticks: seq<Tick>, bars: seq<Bar>) {
    && TicksAscend(ticks) && BarsFollow(bars)
    && (forall i :: 0 <= i < |bars| ==> bars[i].openTime < bars[i].closeTime && Summarizes(p, bars[i], ticks))
    && (forall i :: 0 <= i < |ticks| && ticks[i].time >= p.entryReadyAt ==>
          exists j :: 0 <= j < |bars| && Within(ticks[i], bars[j]))
  }

  /** A bar that was already running when the entry became ready. */
  predicate Straddles(p: SignalPlan, b: Bar) {
    b.openTime < p.entryReadyAt < b.closeTime
  }

  /** Tick and bar resolution decide in the same bar, or neither decides. */
  ghost predicate SameBar(p: SignalPlan, ticks: seq<Tick>, bars: seq<Bar>) {
    var k, j := FirstTick(p, ticks), FirstBar(p, bars);
    if k < |ticks| then j < |bars| && Within(ticks[k], bars[j]) else j == |bars|
  }

  /** Every bar running at the entry that touches a level holds a tick that does so after the entry. */
  ghost predicate RunningTouchesAreLate(p: SignalPlan, ticks: seq<Tick>, bars: seq<Bar>) {
    forall s :: 0 <= s < |bars| && Straddles(p, bars[s]) && DecidingBar(p, bars[s]) ==>
      exists i :: 0 <= i < |ticks| && Within(ticks[i], bars[s]) && DecidingTick(p, ticks[i])
  }

  /**
   * Bar resolution refines tick resolution conservatively: a tick STOP is a bar STOP in the same bar, a bar TARGET
   * is a tick TARGET in the same bar, and one stays open or without a path exactly when the other does.
   */
  ghost predicate Refines(p: SignalPlan, ticks: seq<Tick>, bars: seq<Bar>) {
    var byTick, byBar := Resolve(p, ticks, []), Resolve(p, [], bars);
    var k, j := FirstTick(p, ticks), FirstBar(p, bars);
    && (byTick.result.Stop? ==> byBar.result.Stop?)
    && (byBar.result.Target? ==> byTick.result.Target?)
    && (byTick.result.Open? <==> byBar.result.Open?)
    && (byTick.result.NoPostEntryPath? <==> byBar.result.NoPostEntryPath?)
    && (byTick.resolvedAt.Some? ==>
          && k < |ticks| && j < |bars| && byBar.resolvedAt == Some(bars[j].closeTime)
          && bars[j].openTime <= byTick.resolvedAt.value < bars[j].closeTime)
  }

  lemma TickDecidesItsBar(p: SignalPlan, ticks: seq<Tick>, bars: seq<Bar>, k: nat, j: nat)
    requires BarsOf(p, ticks, bars) && k < |ticks| && j < |bars| && DecidingTick(p, ticks[k])
    requires Within(ticks[k], bars[j])
    ensures DecidingBar(p, bars[j])
    ensures StopAt(p, ExitPrice(p, ticks[k])) ==> BarStops(p, bars[j])
  {
    assert Summarizes(p, bars[j], ticks);
  }

  /** A bar that opened after entry and touches a level holds a tick that decides. */
  lemma BarHoldsADecidingTick(p: SignalPlan, ticks: seq<Tick>, bars: seq<Bar>, j: nat) returns (i: nat)
    requires BarsOf(p, ticks, bars) && j < |bars| && DecidingBar(p, bars[j]) && bars[j].openTime >= p.entryReadyAt
    ensures i < |ticks| && DecidingTick(p, ticks[i]) && Within(ticks[i], bars[j])
  {
    var b := bars[j];
    assert Summarizes(p, b, ticks);
    if BarStops(p, b) <==> p.side.Buy? {
      i :| 0 <= i < |ticks| && Within(ticks[i], b) && ExitPrice(p, ticks[i]) == b.low;
    } else {
      i :| 0 <= i < |ticks| && Within(ticks[i], b) && ExitPrice(p, ticks[i]) == b.high;
    }
  }

  lemma EarlierBarHoldsEarlierTicks(ticks: seq<Tick>, bars: seq<Bar>, i: nat, k: nat, a: nat, j: nat)
    requires TicksAscend(ticks) && BarsFollow(bars) && i < |ticks| && k < |ticks| && a < j < |bars|
    requires Within(ticks[i], bars[a]) && Within(ticks[k], bars[j])
    ensures i < k
  {
    assert bars[a].closeTime <= bars[j].openTime;
    assert ticks[i].time < ticks[k].time;
  }

  /** A bar before the one of the first deciding tick can only touch a level if it was running at the entry. */
  lemma EarlierBarsAreQuiet(p: SignalPlan, ticks: seq<Tick>, bars: seq<Bar>, k: nat, j: nat, a: nat)
    requires BarsOf(p, ticks, bars) && k == FirstTick(p, ticks) < |ticks| && a < j < |bars| && Within(ticks[k], bars[j])
    ensures DecidingBar(p, bars[a]) ==> Straddles(p, bars[a]) && !Within(ticks[k], bars[a])
  {
    assert bars[a].closeTime <= bars[j].openTime;
    if DecidingBar(p, bars[a]) && !Straddles(p, bars[a]) {
      var i := BarHoldsADecidingTick(p, ticks, bars, a);
      EarlierBarHoldsEarlierTicks(ticks, bars, i, k, a, j);
    }
  }

  /** The first deciding tick of all lies in the running bar, if any deciding tick does. */
  lemma RunningBarHoldsTheFirstTick(p: SignalPlan, ticks: seq<Tick>, bars: seq<Bar>, s: nat)
    requires TicksAscend(ticks) && RunningTouchesAreLate(p, ticks, bars)
    requires s < |bars| && Straddles(p, bars[s]) && DecidingBar(p, bars[s])
    ensures var k := FirstTick(p, ticks); k < |ticks| && Within(ticks[k], bars[s])
  {
    var k := FirstTick(p, ticks);
    var i :| 0 <= i < |ticks| && Within(ticks[i], bars[s]) && DecidingTick(p, ticks[i]);
    assert k <= i;
    assert k < i ==> ticks[k].time < ticks[i].time;
  }

  lemma FirstBarFollowsFirstTick(p: SignalPlan, ticks: seq<Tick>, bars: seq<Bar>, k: nat, j: nat)
    requires BarsOf(p, ticks, bars) && RunningTouchesAreLate(p, ticks, bars)
    requires k == FirstTick(p, ticks) < |ticks| && j < |bars| && Within(ticks[k], bars[j])
    ensures FirstBar(p, bars) == j
  {
    TickDecidesItsBar(p, ticks, bars, k, j);
    forall a | 0 <= a < j ensures !DecidingBar(p, bars[a]) {
      EarlierBarsAreQuiet(p, ticks, bars, k, j, a);
      if DecidingBar(p, bars[a]) {
        RunningBarHoldsTheFirstTick(p, ticks, bars, a);
      }
    }
  }

  lemma NoTickNoBar(p: SignalPlan, ticks: seq<Tick>, bars: seq<Bar>)
    requires BarsOf(p, ticks, bars) && RunningTouchesAreLate(p, ticks, bars) && FirstTick(p, ticks) == |ticks|
    ensures FirstBar(p, bars) == |bars|
  {
    forall j | 0 <= j < |bars| ensures !DecidingBar(p, bars[j]) {
      if DecidingBar(p, bars[j]) && !Straddles(p, bars[j]) {
        var i := BarHoldsADecidingTick(p, ticks, bars, j);
      } else if DecidingBar(p, bars[j]) {
        RunningBarHoldsTheFirstTick(p, ticks, bars, j);
      }
    }
  }

  /** A touching bar that was running at the entry is the first bar to decide. */
  lemma RunningBarDecidesFirst(p: SignalPlan, bars: seq<Bar>, s: nat)
    requires BarsFollow(bars) && s < |bars| && Straddles(p, bars[s]) && DecidingBar(p, bars[s])
    ensures FirstBar(p, bars) == s
  {
    forall j | 0 <= j < s ensures !DecidingBar(p, bars[j]) {
      assert bars[j].closeTime <= bars[s].openTime;
    }
  }

  /**
   * The two resolutions decide in the same bar exactly when every running bar that touches a level does so after
   * the entry.
   */
  lemma BarsDecideWithTicks(p: SignalPlan, ticks: seq<Tick>, bars: seq<Bar>)
    requires BarsOf(p, ticks, bars)
    ensures SameBar(p, ticks, bars) <==> RunningTouchesAreLate(p, ticks, bars)
  {
    var k := FirstTick(p, ticks);
    if RunningTouchesAreLate(p, ticks, bars) {
      if k < |ticks| {
        var m :| 0 <= m < |bars| && Within(ticks[k], bars[m]);
        FirstBarFollowsFirstTick(p, ticks, bars, k, m);
      } else {
        NoTickNoBar(p, ticks, bars);
      }
    }
    if SameBar(p, ticks, bars) {
      forall s | 0 <= s < |bars| && Straddles(p, bars[s]) && DecidingBar(p, bars[s])
        ensures exists i :: 0 <= i < |ticks| && Within(ticks[i], bars[s]) && DecidingTick(p, ticks[i])
      {
        RunningBarDecidesFirst(p, bars, s);
        assert Within(ticks[k], bars[s]) && DecidingTick(p, ticks[k]);
      }
    }
  }

  /**
   * The exact condition of the refinement: every bar running at the entry that touches a level holds a tick that
   * decides after the entry, and a bar that closes after the entry comes with a tick after the entry.
   */
  lemma BarsRefineTicksIff(p: SignalPlan, ticks: seq<Tick>, bars: seq<Bar>)
    requires BarsOf(p, ticks, bars)
    ensures Refines(p, ticks, bars) <==>
            && RunningTouchesAreLate(p, ticks, bars)
            && ((exists j :: 0 <= j < |bars| && bars[j].closeTime > p.entryReadyAt) ==>
                (exists i :: 0 <= i < |ticks| && ticks[i].time >= p.entryReadyAt))
  {
    BarsDecideWithTicks(p, ticks, bars);
    if SameBar(p, ticks, bars) && (HasPath(p, [], bars) ==> HasPath(p, ticks, [])) {
      SameBarRefines(p, ticks, bars);
    }
    if Refines(p, ticks, bars) {
      RefinementSharesBarAndPath(p, ticks, bars, FirstTick(p, ticks), FirstBar(p, bars));
    }
  }

  lemma SameBarRefines(p: SignalPlan, ticks: seq<Tick>, bars: seq<Bar>)
    requires BarsOf(p, ticks, bars) && SameBar(p, ticks, bars)
    requires HasPath(p, [], bars) ==> HasPath(p, ticks, [])
    ensures Refines(p, ticks, bars)
  {
    var k, j := FirstTick(p, ticks), FirstBar(p, bars);
    if k < |ticks| {
      TickDecidesItsBar(p, ticks, bars, k, j);
    }
    if HasPath(p, ticks, []) {
      TickIsInALaterBar(p, ticks, bars);
    }
  }

  lemma RefinementSharesBarAndPath(p: SignalPlan, ticks: seq<Tick>, bars: seq<Bar>, k: nat, j: nat)
    requires Refines(p, ticks, bars) && k == FirstTick(p, ticks) && j == FirstBar(p, bars)
    ensures SameBar(p, ticks, bars) && (HasPath(p, [], bars) ==> HasPath(p, ticks, []))
  {
    if k < |ticks| {
      assert ticks[k].time >= p.entryReadyAt;
    }
  }

  lemma TickIsInALaterBar(p: SignalPlan, ticks: seq<Tick>, bars: seq<Bar>)
    requires BarsOf(p, ticks, bars) && HasPath(p, ticks, [])
    ensures HasPath(p, [], bars)
  {
    var i :| 0 <= i < |ticks| && ticks[i].time >= p.entryReadyAt;
    var j :| 0 <= j < |bars| && Within(ticks[i], bars[j]);
    assert bars[j].closeTime > p.entryReadyAt;
  }

  /** Entries on a bar boundary always meet the condition. */
  lemma BarsRefineTicks(p: SignalPlan, ticks: seq<Tick>, bars: seq<Bar>)
    requires BarsOf(p, ticks, bars) && forall s :: 0 <= s < |bars| ==> !Straddles(p, bars[s])
    ensures Refines(p, ticks, bars)
  {
    BarsRefineTicksIff(p, ticks, bars);
    if HasPath(p, [], bars) {
      var j :| 0 <= j < |bars| && bars[j].closeTime > p.entryReadyAt;
      LaterBarHasATick(p, ticks, bars[j]);
    }
  }

  lemma LaterBarHasATick(p: SignalPlan, ticks: seq<Tick>, b: Bar)
    requires Summarizes(p, b, ticks) && b.closeTime > p.entryReadyAt && !Straddles(p, b)
    ensures HasPath(p, ticks, [])
  {
    var i :| 0 <= i < |ticks| && Within(ticks[i], b) && ExitPrice(p, ticks[i]) == b.low;
    assert ticks[i].time >= p.entryReadyAt;
  }

  /** The dip came before the entry: the ticks leave the signal open, the bar running at the entry reports a stop. */
  lemma RunningBarBreaksRefinement(p: SignalPlan) returns (ticks: seq<Tick>, bars: seq<Bar>)
    requires p.side.Buy? && p.stop < p.entry < p.target
    ensures BarsOf(p, ticks, bars) && !Refines(p, ticks, bars)
    ensures Resolve(p, ticks, []).result.Open? && Resolve(p, [], bars).result.Stop?
  {
    var t := p.entryReadyAt;
    ticks := [Tick(t - 1, p.stop, p.stop), Tick(t, p.entry, p.entry)];
    var b := Bar(t - 1, t + 1, p.stop, p.entry, p.stop, p.entry);
    bars := [b];
    assert Within(ticks[0], b) && ExitPrice(p, ticks[0]) == b.low;
    assert Within(ticks[1], b) && ExitPrice(p, ticks[1]) == b.high;
    assert Summarizes(p, b, ticks);
    assert forall i :: 0 <= i < |ticks| ==> Within(ticks[i], bars[0]);
    assert !DecidingTick(p, ticks[0]) && !DecidingTick(p, ticks[1]);
    assert DecidingBar(p, bars[0]) && ticks[1].time >= p.entryReadyAt;
  }

  /** Without a tick after the entry there is no path by tick, yet the bar running at the entry counts as one. */
  lemma QuietBarBreaksRefinement(p: SignalPlan) returns (ticks: seq<Tick>, bars: seq<Bar>)
    requires p.side.Buy? && p.stop < p.entry < p.target
    ensures BarsOf(p, ticks, bars) && !Refines(p, ticks, bars)
    ensures Resolve(p, ticks, []).result.NoPostEntryPath? && Resolve(p, [], bars).result.Open?
  {
    var t := p.entryReadyAt;
    ticks := [Tick(t - 1, p.entry, p.entry)];
    var b := Bar(t - 1, t + 1, p.entry, p.entry, p.entry, p.entry);
    bars := [b];
    assert Within(ticks[0], b) && ExitPrice(p, ticks[0]) == b.low == b.high;
    assert Summarizes(p, b, ticks);
    assert !DecidingTick(p, ticks[0]) && !DecidingBar(p, bars[0]);
    assert bars[0].closeTime > p.entryReadyAt;
  }
}
