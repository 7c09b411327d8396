/** The trailing-stop replay of the revised BUY engine. */
module Trailing {
  import opened Prelude
  import opened Bars
  import opened Schedule
  import opened Revised
  import Reports

  /** A close at or above `trigger` (in R) allows the stop to lock `locked` (in R). */
  datatype LockStep = LockStep(trigger: real, locked: real)

  type Policy = seq<LockStep>

  const NO_TRAIL: Policy := []

  const POLICIES: seq<Policy> := [
    NO_TRAIL,
    [LockStep(0.50, 0.00)],
    [LockStep(0.75, 0.10)],
    [LockStep(1.00, 0.25)],
    [LockStep(0.50, 0.00), LockStep(0.75, 0.10), LockStep(1.00, 0.25), LockStep(1.50, 0.75), LockStep(2.00, 1.25)],
    [LockStep(1.00, 0.00), LockStep(1.50, 0.50), LockStep(2.00, 1.00), LockStep(3.00, 2.00)],
    [LockStep(1.50, 0.00)],
    [LockStep(2.00, 0.50)],
    [LockStep(1.50, 0.00), LockStep(2.00, 0.50), LockStep(3.00, 1.50), LockStep(4.00, 2.50)]
  ]

  datatype Result = AmbiguousSameBar | TrailStop | Stop | Target | EndOfTest

  datatype Exit = Exit(result: Result, closedAt: int, outcomeR: real, finalStop: real, mfe: real, mae: real)

  predicate IsLevel(policy: Policy, r: real) {
    exists k :: 0 <= k < |policy| && policy[k].locked == r
  }

  /** The highest level that a close has earned. */
  function LockedRForClose(closeR: real, policy: Policy): (r: Option<real>)
    ensures r.None? <==> forall k :: 0 <= k < |policy| ==> closeR < policy[k].trigger
    ensures r.Some? ==> exists k :: 0 <= k < |policy| && closeR >= policy[k].trigger && policy[k].locked == r.value
    ensures r.Some? ==> forall k :: 0 <= k < |policy| && closeR >= policy[k].trigger ==> policy[k].locked <= r.value
  {
    if policy == [] then None
    else
      var n := |policy| - 1;
      var before := LockedRForClose(closeR, policy[..n]);
      if closeR < policy[n].trigger then before
      else if before.None? then Some(policy[n].locked)
      else Some(Max(before.value, policy[n].locked))
  }

  function StopAtLevel(t: Setup, level: real): real {
    t.entry + level * t.risk
  }

  /** The stop a bar confirms: its close must keep the spread, and at least 0.20, above it. */
  function Proposal(t: Setup, policy: Policy, b: Bar): Option<real> {
    match LockedRForClose(RAt(t, b.close), policy)
    case None => None
    case Some(level) =>
      var proposed := StopAtLevel(t, level);
      if proposed <= b.close - Max(b.spread, 0.20) then Some(proposed) else None
  }

  function Raise(stop: real, proposal: Option<real>): real {
    match proposal
    case None => stop
    case Some(p) => Max(stop, p)
  }

  function Path(t: Setup, policy: Policy, bars: seq<Bar>, i: nat, end: int, activeStop: real, mfe: real,
      mae: real): Exit
    requires i <= |bars|
    decreases |bars| - i
  {
    if i == |bars| || bars[i].time >= end then
      Exit(EndOfTest, end, RAt(t, LastClose(bars, t.entry)), activeStop, mfe, mae)
    else
      var b := bars[i];
      var mfe', mae' := Max(mfe, RAt(t, b.high)), Min(mae, RAt(t, b.low));
      var stopHit, targetHit := b.low <= activeStop, b.high >= t.target;
      var at := b.time + ONE_MINUTE;
      if stopHit && targetHit then Exit(AmbiguousSameBar, at, RAt(t, activeStop), activeStop, mfe', mae')
      else if stopHit then
        Exit(if activeStop > InitialStop(t) then TrailStop else Stop, at, RAt(t, activeStop), activeStop, mfe', mae')
      else if targetHit then Exit(Target, at, RAt(t, t.target), activeStop, mfe', mae')
      else Path(t, policy, bars, i + 1, end, Raise(activeStop, Proposal(t, policy, b)), mfe', mae')
  }

  method ReplayTrade(t: Setup, policy: Policy, bars: seq<Bar>, openedAt: int, end: int) returns (exit: Exit)
    ensures exit == Path(t, policy, bars, StartIndex(bars, openedAt), end, InitialStop(t), 0.0, 0.0)
  {
    var activeStop, mfe, mae := InitialStop(t), 0.0, 0.0;
    var i := StartIndex(bars, openedAt);
    ghost var first := i;
    while i < |bars| && bars[i].time < end
      invariant first <= i <= |bars|
      invariant Path(t, policy, bars, i, end, activeStop, mfe, mae)
             == Path(t, policy, bars, first, end, InitialStop(t), 0.0, 0.0)
    {
      var bar := bars[i];
      mfe := Max(mfe, RAt(t, bar.high));
      mae := Min(mae, RAt(t, bar.low));
      var stopHit, targetHit := bar.low <= activeStop, bar.high >= t.target;
      if stopHit || targetHit {
        var result, outcomeR;
        if stopHit && targetHit {
          result, outcomeR := AmbiguousSameBar, RAt(t, activeStop);
        } else if stopHit {
          result, outcomeR := if activeStop > InitialStop(t) then TrailStop else Stop, RAt(t, activeStop);
        } else {
          result, outcomeR := Target, RAt(t, t.target);
        }
        return Exit(result, bar.time + ONE_MINUTE, outcomeR, activeStop, mfe, mae);
      }
      var proposed := Proposal(t, policy, bar);
      if proposed.Some? {
        activeStop := Max(activeStop, proposed.value);
      }
      i := i + 1;
    }
    return Exit(EndOfTest, end, RAt(t, LastClose(bars, t.entry)), activeStop, mfe, mae);
  }

  // ---- The trailing stop ----

  /** Bar `k` was closed while the trade was open, so its confirmation counted. */
  ghost predicate Confirmed(t: Setup, policy: Policy, bars: seq<Bar>, i: nat, end: int, exit: Exit, k: int) {
    && i <= k < |bars| && bars[k].time < end
    && (exit.result != EndOfTest ==> bars[k].time + ONE_MINUTE < exit.closedAt)
    && Proposal(t, policy, bars[k]).Some?
  }

  /** The final stop is the highest of the initial stop and the proposals confirmed while the trade was open. */
  lemma {:induction false} StopIsHighestProposal(
      t: Setup, policy: Policy, bars: seq<Bar>, i: nat, end: int, stop: real, mfe: real, mae: real)
    requires i <= |bars| && Ordered(bars)
    ensures var exit := Path(t, policy, bars, i, end, stop, mfe, mae);
            && exit.finalStop >= stop
            && (exit.result != EndOfTest ==> i < |bars| && bars[i].time < exit.closedAt - ONE_MINUTE + 1)
            && (forall k :: Confirmed(t, policy, bars, i, end, exit, k) ==>
               Proposal(t, policy, bars[k]).value <= exit.finalStop)
            && (exit.finalStop == stop
                || exists k ::
                     && Confirmed(t, policy, bars, i, end, exit, k)
                     && Proposal(t, policy, bars[k]).value == exit.finalStop)
    decreases |bars| - i
  {
    if i < |bars| && bars[i].time < end && !(bars[i].low <= stop) && !(bars[i].high >= t.target) {
      var b := bars[i];
      var exit := Path(t, policy, bars, i, end, stop, mfe, mae);
      var stop' := Raise(stop, Proposal(t, policy, b));
      StopIsHighestProposal(t, policy, bars, i + 1, end, stop', Max(mfe, RAt(t, b.high)), Min(mae, RAt(t, b.low)));
      assert exit.result != EndOfTest ==> b.time < bars[i + 1].time;
      forall k | Confirmed(t, policy, bars, i, end, exit, k)
        ensures Proposal(t, policy, bars[k]).value <= exit.finalStop
      {
        assert k == i || Confirmed(t, policy, bars, i + 1, end, exit, k);
      }
      if exit.finalStop != stop {
        if exit.finalStop == stop' {
          assert Confirmed(t, policy, bars, i, end, exit, i);
        } else {
          var k :| Confirmed(t, policy, bars, i + 1, end, exit, k)
            && Proposal(t, policy, bars[k]).value == exit.finalStop;
          assert Confirmed(t, policy, bars, i, end, exit, k);
        }
      }
    }
  }

  /** A stop that was moved sits at a level below a close it was confirmed by, at least the spread and 0.20 away. */
  lemma TrailedStopKeepsItsDistance(t: Setup, policy: Policy, bars: seq<Bar>, openedAt: int, end: int)
    requires Ordered(bars)
    ensures var i := StartIndex(bars, openedAt);
            var exit := Path(t, policy, bars, i, end, InitialStop(t), 0.0, 0.0);
            exit.finalStop == InitialStop(t) ||
            exists k :: Confirmed(t, policy, bars, i, end, exit, k)
              && exit.finalStop <= bars[k].close - Max(bars[k].spread, 0.20)
  {
    var i := StartIndex(bars, openedAt);
    StopIsHighestProposal(t, policy, bars, i, end, InitialStop(t), 0.0, 0.0);
  }

  /** A stop that trails is worth a level of the policy. */
  ghost predicate AtALevel(t: Setup, policy: Policy, stop: real) {
    stop == InitialStop(t) || exists k :: 0 <= k < |policy| && stop == StopAtLevel(t, policy[k].locked)
  }

  lemma RaiseStaysAtALevel(t: Setup, policy: Policy, stop: real, b: Bar)
    requires AtALevel(t, policy, stop)
    ensures AtALevel(t, policy, Raise(stop, Proposal(t, policy, b)))
  {
    var locked := LockedRForClose(RAt(t, b.close), policy);
    if locked.Some? {
      var k :| 0 <= k < |policy| && policy[k].locked == locked.value;
      assert StopAtLevel(t, policy[k].locked) == StopAtLevel(t, locked.value);
    }
  }

  lemma {:induction false} StopStaysAtALevel(
      t: Setup, policy: Policy, bars: seq<Bar>, i: nat, end: int, stop: real, mfe: real, mae: real)
    requires i <= |bars| && AtALevel(t, policy, stop)
    ensures var exit := Path(t, policy, bars, i, end, stop, mfe, mae);
            && AtALevel(t, policy, exit.finalStop)
            && (exit.result == AmbiguousSameBar || exit.result == TrailStop || exit.result == Stop ==>
                  exit.outcomeR == RAt(t, exit.finalStop))
            && (exit.result == TrailStop ==> exit.finalStop > InitialStop(t))
    decreases |bars| - i
  {
    if i < |bars| && bars[i].time < end && !(bars[i].low <= stop) && !(bars[i].high >= t.target) {
      var b := bars[i];
      RaiseStaysAtALevel(t, policy, stop, b);
      StopStaysAtALevel(t, policy, bars, i + 1, end, Raise(stop, Proposal(t, policy, b)),
                        Max(mfe, RAt(t, b.high)), Min(mae, RAt(t, b.low)));
    }
  }

  lemma LevelOutcome(t: Setup, policy: Policy, stop: real)
    requires AtALevel(t, policy, stop)
    ensures RAt(t, stop) == -1.0 || IsLevel(policy, RAt(t, stop))
    ensures stop > InitialStop(t) ==> IsLevel(policy, RAt(t, stop))
  {
    if stop == InitialStop(t) {
      StopIsMinusOneR(t);
    } else {
      var k :| 0 <= k < |policy| && stop == StopAtLevel(t, policy[k].locked);
      LevelIsItsR(t, policy[k].locked);
      assert policy[k].locked == RAt(t, stop);
    }
  }

  /** Every stop-type exit loses exactly 1R or earns a level of the policy, on every bar path. */
  lemma StopExitsEarnALevel(t: Setup, policy: Policy, bars: seq<Bar>, openedAt: int, end: int)
    ensures var exit := Path(t, policy, bars, StartIndex(bars, openedAt), end, InitialStop(t), 0.0, 0.0);
            && (exit.result == AmbiguousSameBar || exit.result == TrailStop || exit.result == Stop ==>
                  exit.outcomeR == -1.0 || IsLevel(policy, exit.outcomeR))
            && (exit.result == TrailStop ==> IsLevel(policy, exit.outcomeR))
  {
    var i := StartIndex(bars, openedAt);
    StopStaysAtALevel(t, policy, bars, i, end, InitialStop(t), 0.0, 0.0);
    LevelOutcome(t, policy, Path(t, policy, bars, i, end, InitialStop(t), 0.0, 0.0).finalStop);
  }

  lemma ShippedLevelsAreNotLosses(n: nat, k: nat)
    requires n < |POLICIES| && k < |POLICIES[n]|
    ensures POLICIES[n][k].locked >= 0.0
  {
    if n == 0 || n == 1 || n == 2 {
    } else if n == 3 || n == 4 {
    } else if n == 5 || n == 6 {
    } else {
      assert n == 7 || n == 8;
    }
  }

  /** Under every shipped policy a trailed stop never ends in a loss. */
  lemma TrailStopsNeverLose(n: nat, t: Setup, bars: seq<Bar>, openedAt: int, end: int)
    requires n < |POLICIES|
    ensures var exit := Path(t, POLICIES[n], bars, StartIndex(bars, openedAt), end, InitialStop(t), 0.0, 0.0);
            exit.result == TrailStop ==> exit.outcomeR >= 0.0
  {
    var policy := POLICIES[n];
    StopExitsEarnALevel(t, policy, bars, openedAt, end);
    var exit := Path(t, policy, bars, StartIndex(bars, openedAt), end, InitialStop(t), 0.0, 0.0);
    if exit.result == TrailStop {
      var k :| 0 <= k < |policy| && policy[k].locked == exit.outcomeR;
      ShippedLevelsAreNotLosses(n, k);
    }
  }

  // ---- A whole report ----

  datatype Executed = Executed(openedAt: int, setup: Setup, exit: Exit)

  function Attempt(
      policy: Policy, stopMultiplier: Multiplier, targetMultiplier: real, bars: seq<Bar>, end: int,
        s: Signal): Option<Executed> {
    match Widen(s, stopMultiplier, targetMultiplier)
    case None => None
    case Some(t) =>
      Some(Executed(s.openedAt, t, Path(t, policy, bars, StartIndex(bars, s.openedAt), end, InitialStop(t), 0.0, 0.0)))
  }

  function Attempter(policy: Policy, stopMultiplier: Multiplier, targetMultiplier: real, bars: seq<Bar>, end: int)
    : Signal -> Option<Executed> {
    (s: Signal) => Attempt(policy, stopMultiplier, targetMultiplier, bars, end, s)
  }

  function Closed(e: Executed): int { e.exit.closedAt }
  function OutcomeR(e: Executed): real { e.exit.outcomeR }

  /** What a report counts, in the order in which the script lists it. */
  function Flags(): seq<Executed -> bool> {
    [(e: Executed) => e.exit.result.Target?,
     (e: Executed) => e.exit.result.Stop?,
     (e: Executed) => e.exit.result.TrailStop?,
     (e: Executed) => e.exit.result.AmbiguousSameBar?]
  }

  method ReplayPolicy(
      policy: Policy, stopMultiplier: Multiplier, targetMultiplier: real,
      bars: seq<Bar>, start: int, end: int, signals: seq<Signal>)
      returns (book: Book<Executed>, summary: Reports.Summary)
    ensures book == Run(start, signals, Opening, Attempter(policy, stopMultiplier, targetMultiplier, bars, end), Closed)
    ensures Reports.Summarizes(summary, book.executed, Flags(), OutcomeR, Closed)
  {
    ghost var attempt := Attempter(policy, stopMultiplier, targetMultiplier, bars, end);
    book := Book(start, [], 0, 0);
    for n := 0 to |signals|
      invariant book == Run(start, signals[..n], Opening, attempt, Closed)
    {
      var s := signals[n];
      assert signals[..n + 1][..n] == signals[..n];
      if s.openedAt < book.unavailableUntil {
        book := book.(overlapping := book.overlapping + 1);
        continue;
      }
      var t := Widen(s, stopMultiplier, targetMultiplier);
      if t.None? {
        book := book.(invalid := book.invalid + 1);
        continue;
      }
      var exit := ReplayTrade(t.value, policy, bars, s.openedAt, end);
      book := book.(unavailableUntil := exit.closedAt,
        executed := book.executed + [Executed(s.openedAt, t.value, exit)]);
    }
    assert signals[..|signals|] == signals;
    summary := Reports.Summarize(book.executed, Flags(), OutcomeR, Closed);
  }
}
