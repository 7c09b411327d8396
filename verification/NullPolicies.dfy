/** The separately written replays are one semantics: with their extra rule switched off they agree over whole runs. */
module NullPolicies {
  import opened Prelude
  import opened Bars
  import opened Schedule
  import opened Revised
  import WideStop
  import Trailing
  import Management
  import DualTp

  // ---- NO_TRAIL is the wide-stop replay ----

  function WideResult(r: Trailing.Result): WideStop.Result {
    match r
    case AmbiguousSameBar => WideStop.AmbiguousSameBar
    case Stop | TrailStop => WideStop.Stop
    case Target => WideStop.Target
    case EndOfTest => WideStop.EndOfTest
  }

  predicate SameAsTrailing(w: WideStop.Executed, e: Trailing.Executed) {
    && w.openedAt == e.openedAt && w.setup == e.setup && !e.exit.result.TrailStop?
    && w.exit == WideStop.Exit(WideResult(e.exit.result), e.exit.closedAt, e.exit.outcomeR, e.exit.mfe, e.exit.mae)
  }

  lemma {:induction false} NoTrailPath(t: Setup, bars: seq<Bar>, i: nat, end: int, mfe: real, mae: real)
    requires i <= |bars|
    ensures var e := Trailing.Path(t, Trailing.NO_TRAIL, bars, i, end, InitialStop(t), mfe, mae);
            && !e.result.TrailStop?
            && WideStop.Path(t, bars, i, end, mfe, mae)
               == WideStop.Exit(WideResult(e.result), e.closedAt, e.outcomeR, e.mfe, e.mae)
    decreases |bars| - i
  {
    if i < |bars| && bars[i].time < end {
      StopIsMinusOneR(t);
      NoTrailPath(t, bars, i + 1, end, Max(mfe, RAt(t, bars[i].high)), Min(mae, RAt(t, bars[i].low)));
    }
  }

  /** Same executed trades, close times, outcomes and skip counters over any report. */
  lemma NoTrailIsWideStop(
      stopMultiplier: Multiplier, targetMultiplier: real, bars: seq<Bar>, start: int, end: int, signals: seq<Signal>)
    ensures var wide := Run(start, signals, Opening, WideStop.Attempter(stopMultiplier, targetMultiplier, bars, end),
        WideStop.Closed);
            var none := Run(start, signals, Opening,
              Trailing.Attempter(Trailing.NO_TRAIL, stopMultiplier, targetMultiplier, bars, end), Trailing.Closed);
            && wide.overlapping == none.overlapping && wide.invalid == none.invalid
            && |wide.executed| == |none.executed|
            && forall k :: 0 <= k < |wide.executed| ==> SameAsTrailing(wide.executed[k], none.executed[k])
  {
    var wide := WideStop.Attempter(stopMultiplier, targetMultiplier, bars, end);
    var none := Trailing.Attempter(Trailing.NO_TRAIL, stopMultiplier, targetMultiplier, bars, end);
    forall s: Signal | s in signals
      ensures wide(s).Some? == none(s).Some?
      ensures wide(s).Some? ==> SameAsTrailing(wide(s).value, none(s).value)
    {
      var t := Widen(s, stopMultiplier, targetMultiplier);
      if t.Some? {
        NoTrailPath(t.value, bars, StartIndex(bars, s.openedAt), end, 0.0, 0.0);
      }
    }
    SameBook(start, signals, Opening, wide, WideStop.Closed, none, Trailing.Closed, SameAsTrailing);
  }

  // ---- NO_MANAGEMENT is the wide-stop replay with a clamped final mark ----

  predicate SameAsManaged(w: WideStop.Executed, e: Management.Executed) {
    && w.openedAt == e.openedAt && w.setup == e.setup && SameExit(e.setup, w.exit, e.exit)
  }

  predicate SameExit(t: Setup, w: WideStop.Exit, e: Management.Exit) {
    && w.closedAt == e.closedAt && w.mfe == e.mfe && w.mae == e.mae
    && match e.result
       case AmbiguousSameBar => w.result == WideStop.AmbiguousSameBar && w.outcomeR == e.outcomeR
       case Stop => w.result == WideStop.Stop && w.outcomeR == e.outcomeR
       case Target => w.result == WideStop.Target && w.outcomeR == e.outcomeR
       case EndOfTest => w.result == WideStop.EndOfTest && e.outcomeR == Management.Clamp(t, w.outcomeR)
       case ManagedExit(_) => false
  }

  lemma {:induction false} NoManagementPath(
      tr: Management.Trade, bars: seq<Bar>, first: nat, i: nat, end: int, w: Management.Walk)
    requires first <= i <= |bars| && tr.policy.NoManagement?
    ensures SameExit(tr.setup, WideStop.Path(tr.setup, bars, i, end, w.mfe, w.mae),
        Management.Path(tr, bars, first, i, end, w))
    decreases |bars| - i
  {
    if i < |bars| && bars[i].time < end {
      var w' := Management.Observe(tr.setup, w, i - first, bars[i]);
      assert Management.ReasonAt(tr, bars[first..i + 1], w').None?;
      NoManagementPath(tr, bars, first, i + 1, end, w');
    }
  }

  lemma NoManagementIsWideStop(
      stopMultiplier: Multiplier, targetMultiplier: real, bars: seq<Bar>, start: int, end: int, signals: seq<Signal>)
    ensures var wide := Run(start, signals, Opening, WideStop.Attempter(stopMultiplier, targetMultiplier, bars, end),
        WideStop.Closed);
            var none := Run(start, signals, Opening,
              Management.Attempter(Management.NoManagement, stopMultiplier, targetMultiplier, bars, end),
                Management.Closed);
            && wide.overlapping == none.overlapping && wide.invalid == none.invalid
            && |wide.executed| == |none.executed|
            && forall k :: 0 <= k < |wide.executed| ==> SameAsManaged(wide.executed[k], none.executed[k])
  {
    var wide := WideStop.Attempter(stopMultiplier, targetMultiplier, bars, end);
    var none := Management.Attempter(Management.NoManagement, stopMultiplier, targetMultiplier, bars, end);
    forall s: Signal | s in signals
      ensures wide(s).Some? == none(s).Some?
      ensures wide(s).Some? ==> SameAsManaged(wide(s).value, none(s).value)
    {
      var t := Widen(s, stopMultiplier, targetMultiplier);
      if t.Some? {
        var first := StartIndex(bars, s.openedAt);
        NoManagementPath(Management.TradeOf(Management.NoManagement, stopMultiplier, s, t.value, bars, first),
                         bars, first, first, end, Management.FRESH);
      }
    }
    SameBook(start, signals, Opening, wide, WideStop.Closed, none, Management.Closed, SameAsManaged);
  }

  // ---- FULL_TP2 is a plain stop-first replay aimed at TP2 ----

  function PlainSetup(p: DualTp.Plan): Setup
    requires DualTp.Valid(p) && p.side.Buy?
  {
    Setup(p.entry, DualTp.Risk(p), p.tp2)
  }

  predicate SameTrade(w: WideStop.Exit, e: DualTp.Exit) {
    && w.closedAt == e.closedAt && w.outcomeR == e.outcomeR && w.mfe == e.mfe && w.mae == e.mae
    && (w.result.EndOfTest? <==> e.result.EndOfTest?)
    && (w.result.Target? <==> e.result.Tp2?)
  }

  lemma FullTp2Bar(p: DualTp.Plan, w: DualTp.Walk, b: Bar)
    requires DualTp.Valid(p) && p.side.Buy? && p.stop < p.entry && p.runner == 1.0 && !p.moveBe
    requires w.activeStop == p.stop
    ensures var t, x := PlainSetup(p), DualTp.Excursion(p, w, b);
            && InitialStop(t) == p.stop
            && x.mfe == Max(w.mfe, RAt(t, b.high)) && x.mae == Min(w.mae, RAt(t, b.low)) && x.activeStop == p.stop
            && match DualTp.OnBar(p, w, b)
               case Done(exit) =>
                 && (b.low <= p.stop || b.high >= p.tp2)
                 && exit.closedAt == b.time + ONE_MINUTE && exit.mfe == x.mfe && exit.mae == x.mae
                 && exit.outcomeR == (if b.low <= p.stop then -1.0 else RAt(t, p.tp2))
                 && (exit.result.Tp2? <==> !(b.low <= p.stop)) && !exit.result.EndOfTest?
               case Continue(w') =>
                 && !(b.low <= p.stop) && !(b.high >= p.tp2)
                 && w'.mfe == x.mfe && w'.mae == x.mae && w'.activeStop == p.stop
  {
    var t := PlainSetup(p);
    StopIsMinusOneR(t);
    assert DualTp.Mixed(p, DualTp.RAt(p, p.stop)) == DualTp.RAt(p, p.stop) == -1.0;
    assert DualTp.Mixed(p, DualTp.TpR(p, p.tp2)) == DualTp.TpR(p, p.tp2) == RAt(t, p.tp2);
  }

  lemma {:induction false} FullTp2Path(p: DualTp.Plan, bars: seq<Bar>, i: nat, end: int, w: DualTp.Walk)
    requires DualTp.Valid(p) && p.side.Buy? && p.stop < p.entry && p.runner == 1.0 && !p.moveBe
    requires w.activeStop == p.stop
    requires i <= |bars|
    ensures SameTrade(WideStop.Path(PlainSetup(p), bars, i, end, w.mfe, w.mae), DualTp.Path(p, bars, i, end, w))
    decreases |bars| - i
  {
    if i < |bars| && bars[i].time < end {
      FullTp2Bar(p, w, bars[i]);
      var step := DualTp.OnBar(p, w, bars[i]);
      if step.Continue? {
        FullTp2Path(p, bars, i + 1, end, step.walk);
      }
    } else {
      assert DualTp.Mixed(p, DualTp.RAt(p, LastClose(bars, p.entry))) == DualTp.RAt(p, LastClose(bars, p.entry));
    }
  }

  /** FULL_TP2 closes this trade when and as the plain replay aimed at TP2 does. */
  ghost predicate IsStopFirst(p: DualTp.Plan, bars: seq<Bar>, openedAt: int, end: int)
    requires DualTp.Valid(p) && p.side.Buy?
  {
    SameTrade(WideStop.Path(PlainSetup(p), bars, StartIndex(bars, openedAt), end, 0.0, 0.0),
              DualTp.On(p, bars, openedAt, end).exit)
  }

  /**
   * FULL_TP2 on the BUY side ignores TP1 on every bar path - for exactly the signals whose stop lies below the
   * entry. The script takes the absolute distance and so also accepts a stop above it.
   */
  lemma FullTp2IsStopFirstIff(s: DualTp.Signal, riskAtrLimit: real)
    requires DualTp.PlanOf(DualTp.FullTp2, Buy, s, riskAtrLimit).Some?
    ensures var p := DualTp.PlanOf(DualTp.FullTp2, Buy, s, riskAtrLimit).value;
            && DualTp.Valid(p) && p.side.Buy?
            && ((forall bars, end :: IsStopFirst(p, bars, s.openedAt, end)) <==> s.stop < s.entry)
  {
    DualTp.PoliciesAreExecutable(DualTp.FullTp2, Buy, s, riskAtrLimit);
    var p := DualTp.PlanOf(DualTp.FullTp2, Buy, s, riskAtrLimit).value;
    if s.stop < s.entry {
      forall bars, end ensures IsStopFirst(p, bars, s.openedAt, end) {
        FullTp2Path(p, bars, StartIndex(bars, s.openedAt), end, DualTp.Start(p));
      }
    } else {
      var bars := StopAboveEntry(p, s.openedAt);
    }
  }

  /** A stop above the entry is hit at once, where the plain replay waits for a fall by the same distance. */
  lemma StopAboveEntry(p: DualTp.Plan, openedAt: int) returns (bars: seq<Bar>)
    requires DualTp.Valid(p) && p.side.Buy? && p.stop >= p.entry
    ensures !IsStopFirst(p, bars, openedAt, openedAt + 1)
  {
    var b := Bar(openedAt, p.entry, p.entry, p.entry, p.entry, 0.0);
    bars := [b];
    assert StartIndex(bars, openedAt) == 0;
    assert DualTp.OnBar(p, DualTp.Start(p), b).Done?;
    assert WideStop.Path(PlainSetup(p), bars, 1, openedAt + 1, 0.0, 0.0).result.EndOfTest?;
  }
}
