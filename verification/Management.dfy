/** The managed replay of the revised BUY engine: early exits on evidence of a reversal. */
module Management {
  import opened Prelude
  import opened Bars
  import opened Schedule
  import opened Revised
  import Reports

  datatype Policy = NoManagement | Conservative | ObstacleAware | M5Persistent | TypedState

  datatype Evidence = Evidence(microBreak: bool, momentum: bool, acceptance: bool, m5Persistence: bool)

  datatype Reason =
    | NearTargetPersistentReversal | NearTargetMomentumReversal
    | ObstaclePersistentReversal | OneRPersistentInvalidation
    | M5PersistentInvalidation | FastFadeInvalidation | RunnerM5PersistentInvalidation

  datatype Result = AmbiguousSameBar | Stop | Target | ManagedExit(reason: Reason) | EndOfTest

  datatype Exit = Exit(result: Result, closedAt: int, outcomeR: real, peakR: real, mfe: real, mae: real)

  /** What is fixed for one trade. */
  datatype Trade = Trade(policy: Policy, setup: Setup, obstacleR: real, atr: real)

  /** What the loop carries; `peakIndex` counts bars since entry. */
  datatype Walk = Walk(peakR: real, peakIndex: nat, mfe: real, mae: real)

  const FRESH := Walk(0.0, 0, 0.0, 0.0)

  function TrueRange(previous: Bar, current: Bar): real {
    Max(current.high - current.low, Max(Abs(current.high - previous.close), Abs(current.low - previous.close)))
  }

  function SumTrueRange(history: seq<Bar>, n: nat): real
    requires n < |history|
  {
    if n == 0 then 0.0
    else TrueRange(history[|history| - n - 1], history[|history| - n]) + SumTrueRange(history, n - 1)
  }

  /** Mean true range of the last fourteen bars, or zero when the history is too short. */
  function Atr(history: seq<Bar>): real {
    if |history| < 15 then 0.0 else SumTrueRange(history, 14) / 14.0
  }

  /** One for a bar that closes below its open. */
  function Bearish(b: Bar): nat {
    if b.close < b.open then 1 else 0
  }

  function ReversalEvidence(path: seq<Bar>, entry: real, atr: real): Evidence
    requires path != []
  {
    var index := |path| - 1;
    var latest := path[index];
    var microBreak := index >= 3
      && latest.close < Min(path[index - 3].low, Min(path[index - 2].low, path[index - 1].low))
      && latest.close < latest.open;
    var momentum := index >= 2 && atr > 0.0
      && Bearish(path[index - 2]) + Bearish(path[index - 1]) + Bearish(latest) >= 2
      && path[index - 2].open - latest.close >= 0.8 * atr
      && (if latest.high > latest.low then (latest.close - latest.low) / (latest.high - latest.low) else 1.0) <= 0.35;
    var tolerance := Max(0.20, atr * 0.10);
    var acceptance := index >= 1 && path[index - 1].close < entry - tolerance && latest.close < entry - tolerance;
    var m5Persistence := index >= 9 && path[index - 5].close < entry && latest.close < entry;
    Evidence(microBreak, momentum, acceptance, m5Persistence)
  }

  function ManagementReason(
      policy: Policy, peakR: real, obstacleTouched: bool, nearTarget: bool, barsSincePeak: int,
        e: Evidence): Option<Reason> {
    var microMomentum := e.microBreak && e.momentum;
    var allThree := microMomentum && e.acceptance;
    if policy.NoManagement? || barsSincePeak < 2 then None
    else match policy
      case Conservative =>
        if nearTarget && allThree then Some(NearTargetPersistentReversal)
        else if obstacleTouched && allThree then Some(ObstaclePersistentReversal)
        else if peakR >= 1.0 && allThree then Some(OneRPersistentInvalidation)
        else None
      case ObstacleAware =>
        if nearTarget && microMomentum then Some(NearTargetMomentumReversal)
        else if obstacleTouched && allThree then Some(ObstaclePersistentReversal)
        else if peakR >= 1.0 && allThree then Some(OneRPersistentInvalidation)
        else None
      case M5Persistent =>
        if nearTarget && allThree then Some(NearTargetPersistentReversal)
        else if (obstacleTouched || peakR >= 1.0) && allThree && e.m5Persistence then Some(M5PersistentInvalidation)
        else None
      case TypedState =>
        if 0.50 <= peakR < 1.0 && allThree then Some(FastFadeInvalidation)
        else if nearTarget && allThree then Some(NearTargetPersistentReversal)
        else if (obstacleTouched || peakR >= 1.0) && allThree && e.m5Persistence
          then Some(RunnerM5PersistentInvalidation)
        else None
      case NoManagement => None
  }

  function TargetR(t: Setup): real {
    RAt(t, t.target)
  }

  function Clamp(t: Setup, r: real): real {
    Max(-1.0, Min(TargetR(t), r))
  }

  function Observe(t: Setup, w: Walk, index: nat, b: Bar): Walk {
    var highR := RAt(t, b.high);
    Walk(Max(w.peakR, highR), if highR > w.peakR then index else w.peakIndex, Max(w.mfe, highR),
      Min(w.mae, RAt(t, b.low)))
  }

  function ReasonAt(tr: Trade, path: seq<Bar>, w: Walk): Option<Reason>
    requires path != []
  {
    ManagementReason(tr.policy, w.peakR, w.peakR >= tr.obstacleR, w.peakR >= 0.80 * TargetR(tr.setup),
                     |path| - 1 - w.peakIndex, ReversalEvidence(path, tr.setup.entry, tr.atr))
  }

  function Path(tr: Trade, bars: seq<Bar>, first: nat, i: nat, end: int, w0: Walk): Exit
    requires first <= i <= |bars|
    decreases |bars| - i
  {
    var t := tr.setup;
    if i == |bars| || bars[i].time >= end then
      Exit(EndOfTest, end, Clamp(t, RAt(t, LastClose(bars, t.entry))), w0.peakR, w0.mfe, w0.mae)
    else
      var b := bars[i];
      var w := Observe(t, w0, i - first, b);
      var stopHit, targetHit := b.low <= InitialStop(t), b.high >= t.target;
      var at := b.time + ONE_MINUTE;
      if stopHit then Exit(if targetHit then AmbiguousSameBar else Stop, at, -1.0, w.peakR, w.mfe, w.mae)
      else if targetHit then Exit(Target, at, TargetR(t), w.peakR, w.mfe, w.mae)
      else match ReasonAt(tr, bars[first..i + 1], w)
        case Some(reason) => Exit(ManagedExit(reason), at, Clamp(t, RAt(t, b.close)), w.peakR, w.mfe, w.mae)
        case None => Path(tr, bars, first, i + 1, end, w)
  }

  method ReplayTrade(tr: Trade, bars: seq<Bar>, first: nat, end: int) returns (exit: Exit)
    requires first <= |bars|
    ensures exit == Path(tr, bars, first, first, end, FRESH)
  {
    var t := tr.setup;
    var peakR, mfe, mae := 0.0, 0.0, 0.0;
    var peakIndex: nat := 0;
    var path: seq<Bar> := [];
    var i := first;
    while i < |bars| && bars[i].time < end
      invariant first <= i <= |bars| && path == bars[first..i]
      invariant Path(tr, bars, first, i, end, Walk(peakR, peakIndex, mfe, mae))
        == Path(tr, bars, first, first, end, FRESH)
    {
      var bar := bars[i];
      path := path + [bar];
      var index := |path| - 1;
      var currentHighR := RAt(t, bar.high);
      ghost var before := Walk(peakR, peakIndex, mfe, mae);
      mfe := Max(mfe, currentHighR);
      mae := Min(mae, RAt(t, bar.low));
      if currentHighR > peakR {
        peakR, peakIndex := currentHighR, index;
      }
      var walk := Walk(peakR, peakIndex, mfe, mae);
      assert walk == Observe(t, before, i - first, bar);
      var stopHit, targetHit := bar.low <= InitialStop(t), bar.high >= t.target;
      if stopHit || targetHit {
        var result, outcomeR;
        if stopHit && targetHit {
          result, outcomeR := AmbiguousSameBar, -1.0;
        } else if stopHit {
          result, outcomeR := Stop, -1.0;
        } else {
          result, outcomeR := Target, TargetR(t);
        }
        return Exit(result, bar.time + ONE_MINUTE, outcomeR, peakR, mfe, mae);
      }
      assert path == bars[first..i + 1];
      var reason := ReasonAt(tr, path, walk);
      if reason.Some? {
        return Exit(ManagedExit(reason.value), bar.time + ONE_MINUTE, Clamp(t, RAt(t, bar.close)), peakR, mfe, mae);
      }
      i := i + 1;
    }
    return Exit(EndOfTest, end, Clamp(t, RAt(t, LastClose(bars, t.entry))), peakR, mfe, mae);
  }

  // ---- Guarantees ----

  /** Every trade, managed or not, ends between the initial loss and the target. */
  lemma {:induction false} OutcomesAreBounded(tr: Trade, bars: seq<Bar>, first: nat, i: nat, end: int, w: Walk)
    requires first <= i <= |bars|
    ensures -1.0 <= Path(tr, bars, first, i, end, w).outcomeR <= TargetR(tr.setup)
    decreases |bars| - i
  {
    StopIsMinusOneR(tr.setup);
    if i < |bars| && bars[i].time < end {
      var b := bars[i];
      var w' := Observe(tr.setup, w, i - first, b);
      if !(b.low <= InitialStop(tr.setup)) && !(b.high >= tr.setup.target)
        && ReasonAt(tr, bars[first..i + 1], w').None? {
        OutcomesAreBounded(tr, bars, first, i + 1, end, w');
      }
    }
  }

  /** Whenever `patient` would leave a trade, so would `eager`. */
  predicate AtLeastAsEager(eager: Policy, patient: Policy) {
    || patient.NoManagement?
    || eager == patient
    || (patient.M5Persistent? && !eager.NoManagement?)
    || (patient.Conservative? && eager.ObstacleAware?)
  }

  lemma EagerReasons(
      eager: Policy, patient: Policy, peakR: real, obstacleTouched: bool, nearTarget: bool, barsSincePeak: int,
        e: Evidence)
    requires AtLeastAsEager(eager, patient)
    ensures ManagementReason(patient, peakR, obstacleTouched, nearTarget, barsSincePeak, e).Some? ==>
            ManagementReason(eager, peakR, obstacleTouched, nearTarget, barsSincePeak, e).Some?
  {
  }

  ghost predicate NoLater(eager: Exit, patient: Exit) {
    && (!patient.result.EndOfTest? ==> !eager.result.EndOfTest? && eager.closedAt <= patient.closedAt)
    && (eager == patient || eager.result.ManagedExit?)
  }

  /** A more eager policy never holds the same trade longer, and where they part it is by its own managed exit. */
  lemma {:induction false} EagerPolicyClosesNoLater(
      tr: Trade, patient: Policy, bars: seq<Bar>, first: nat, i: nat, end: int, w: Walk)
    requires first <= i <= |bars| && Ordered(bars) && AtLeastAsEager(tr.policy, patient)
    ensures NoLater(Path(tr, bars, first, i, end, w), Path(tr.(policy := patient), bars, first, i, end, w))
    ensures var exit := Path(tr.(policy := patient), bars, first, i, end, w);
            !exit.result.EndOfTest? ==> i < |bars| && bars[i].time + ONE_MINUTE <= exit.closedAt
    decreases |bars| - i
  {
    if i < |bars| && bars[i].time < end {
      var b, t := bars[i], tr.setup;
      var w' := Observe(t, w, i - first, b);
      if !(b.low <= InitialStop(t)) && !(b.high >= t.target) {
        var path := bars[first..i + 1];
        EagerReasons(tr.policy, patient, w'.peakR, w'.peakR >= tr.obstacleR, w'.peakR >= 0.80 * TargetR(t),
                     |path| - 1 - w'.peakIndex, ReversalEvidence(path, t.entry, tr.atr));
        if ReasonAt(tr.(policy := patient), path, w').None? {
          EagerPolicyClosesNoLater(tr, patient, bars, first, i + 1, end, w');
        }
      }
    }
  }

  // ---- A whole report ----

  datatype Executed = Executed(openedAt: int, setup: Setup, exit: Exit)

  function TradeOf(policy: Policy, stopMultiplier: Multiplier, s: Signal, t: Setup, bars: seq<Bar>, first: nat): Trade
    requires first <= |bars|
  {
    Trade(policy, t, s.firstObstacleR / stopMultiplier, Atr(bars[if first > 20 then first - 20 else 0..first]))
  }

  function Attempt(
      policy: Policy, stopMultiplier: Multiplier, targetMultiplier: real, bars: seq<Bar>, end: int,
        s: Signal): Option<Executed> {
    match Widen(s, stopMultiplier, targetMultiplier)
    case None => None
    case Some(t) =>
      var first := StartIndex(bars, s.openedAt);
      Some(Executed(s.openedAt, t,
        Path(TradeOf(policy, stopMultiplier, s, t, bars, first), bars, first, first, end, FRESH)))
  }

  function Attempter(policy: Policy, stopMultiplier: Multiplier, targetMultiplier: real, bars: seq<Bar>, end: int)
    : Signal -> Option<Executed> {
    (s: Signal) => Attempt(policy, stopMultiplier, targetMultiplier, bars, end, s)
  }

  function Closed(e: Executed): int { e.exit.closedAt }
  function OutcomeR(e: Executed): real { e.exit.outcomeR }

  /** What a report counts, in the order in which the script lists it. */
  function Flags(): seq<Executed -> bool> {
    [(e: Executed) => e.exit.result.Target?,
     (e: Executed) => e.exit.result.Stop?,
     (e: Executed) => e.exit.result.ManagedExit?,
     (e: Executed) => e.exit.result.AmbiguousSameBar?]
  }

  method ReplayPolicy(
      policy: Policy, stopMultiplier: Multiplier, targetMultiplier: real,
      bars: seq<Bar>, start: int, end: int, signals: seq<Signal>)
      returns (book: Book<Executed>, summary: Reports.Summary)
    ensures book == Run(start, signals, Opening, Attempter(policy, stopMultiplier, targetMultiplier, bars, end), Closed)
    ensures Reports.Summarizes(summary, book.executed, Flags(), OutcomeR, Closed)
  {
    ghost var attempt := Attempter(policy, stopMultiplier, targetMultiplier, bars, end);
    book := Book(start, [], 0, 0);
    for n := 0 to |signals|
      invariant book == Run(start, signals[..n], Opening, attempt, Closed)
    {
      var s := signals[n];
      assert signals[..n + 1][..n] == signals[..n];
      if s.openedAt < book.unavailableUntil {
        book := book.(overlapping := book.overlapping + 1);
        continue;
      }
      var t := Widen(s, stopMultiplier, targetMultiplier);
      if t.None? {
        book := book.(invalid := book.invalid + 1);
        continue;
      }
      var first := StartIndex(bars, s.openedAt);
      var exit := ReplayTrade(TradeOf(policy, stopMultiplier, s, t.value, bars, first), bars, first, end);
      book := book.(unavailableUntil := exit.closedAt,
        executed := book.executed + [Executed(s.openedAt, t.value, exit)]);
    }
    assert signals[..|signals|] == signals;
    summary := Reports.Summarize(book.executed, Flags(), OutcomeR, Closed);
  }
}
