/** What any sequence of polling cycles guarantees, and how the event log reads back. */
module OrderProtocolTheorems {
  import opened Prelude
  import opened ExecutionBridge
  import opened OrderProtocol

  /** Any number of cycles on one store; a halted run may be polled again. */
  function RunOf(c: Config, ws: seq<World>, attempts: seq<string>): State
    requires |ws| == |attempts|
  {
    if ws == [] then START
    else Apply(RunOf(c, ws[..|ws| - 1], attempts[..|ws| - 1]), CycleOf(c, ws[|ws| - 1], attempts[|ws| - 1]))
  }

  // ---- An order is sent exactly when every gate is open ----

  /** Every gate between a poll and the broker. */
  predicate MaySend(c: Config, w: World) {
    var intent := Decision(c, w);
    && EvaluateStopPolicy(c.policy, w.performance).None?
    && !AccountChanged(c, w)
    && IsTrade(intent.action)
    && (intent.action.Open? ==> w.sized.accepted)
    && (!intent.action.CancelPending? ==> intent.side.Some? && SizeOf(w, intent).volume > 0.0 && w.liveQuote.Some?)
    && (intent.action.Open? || intent.action.Add? ==> w.guardsPass)
    && w.precheck == Some(true)
    && c.allowLive
    && w.recheck == Some(true)
  }

  /** At most one order leaves a cycle, it leaves exactly when all gates are open, and it is the revalidated request. */
  lemma SendsExactlyWhenAllowed(c: Config, w: World, attempt: string)
    ensures var intent, sent := Decision(c, w), CycleOf(c, w, attempt).sent;
            sent == if MaySend(c, w) then [LiveRequest(w, BuildOrderRequest(w, intent, SizeOf(w, intent).volume))]
              else []
  {
  }

  /** What goes out: closing trades turn the side around, and a positive live price replaces the planned one. */
  lemma SentOrderIsTheIntent(c: Config, w: World, attempt: string)
    requires CycleOf(c, w, attempt).sent != []
    ensures var intent, r := Decision(c, w), CycleOf(c, w, attempt).sent[0];
            && r.action == intent.action
            && (intent.action.CancelPending? ==> r.orderTicket == intent.orderTicket)
            && (!intent.action.CancelPending? ==>
                  var side := if intent.action.Close? || intent.action.Reduce? then Opposite(intent.side.value)
                    else intent.side.value;
                  && r.orderType == Some(side)
                  && (Executable(side, w.liveQuote.value) > 0.0 ==> r.price == Executable(side, w.liveQuote.value)))
  {
    SendsExactlyWhenAllowed(c, w, attempt);
  }

  /** An opening order carries the sized volume unless the engine's payload names another one. */
  lemma OpeningVolumeIsTheSizedOneIff(c: Config, w: World, attempt: string)
    requires CycleOf(c, w, attempt).sent != [] && Decision(c, w).action.Open?
    ensures var intent, r := Decision(c, w), CycleOf(c, w, attempt).sent[0];
            r.volume == w.sized.volume <==>
              (intent.payloadVolume == 0.0 && intent.positionVolume == 0.0)
              || intent.payloadVolume == w.sized.volume
              || (intent.payloadVolume == 0.0 && intent.positionVolume == w.sized.volume)
  {
    SendsExactlyWhenAllowed(c, w, attempt);
  }

  const LOOSE := Config(StopPolicy(None, None, None, None, None, None, None), None, true, true)
  const FLAT := Performance(0.0, 0.0, 0, 0, 0.0, None)

  function OpenWith(payloadVolume: real): World {
    World(0, FLAT, None, "GOLD", Quote(100.0, 101.0),
          Some(Intent(Open, Some(Buy), 0.0, payloadVolume, 0.0, None, None, None)), Size(true, 0.01), true, Some(true),
          Some(Quote(100.0, 101.0)), Some(true), Some(SendResult(None, true, false, Some("1"), Some("2"), 0.0, 0.0)))
  }

  /** Sized at 0.01 lots, sent at 5. */
  lemma PayloadVolumeOverridesTheRiskEngine()
    ensures var w := OpenWith(5.0); w.sized.volume == 0.01 && CycleOf(LOOSE, w, "a").sent[0].volume == 5.0
  {
  }

  // ---- One settling event per attempt ----

  /** The reader's trimming and upper-casing leaves the protocol's own words alone. */
  ghost predicate KeepsWords(norm: Status -> Status) {
    forall s: Status :: !s.OtherStatus? ==> norm(s) == s
  }

  predicate Settling(norm: Status -> Status, r: Record) {
    IsTerminal(r.phase, norm(r.status))
  }

  predicate Fills(r: Record) {
    r.phase.Fill? && IsFilledStatus(r.status)
  }

  /** An order that was really filled; a dry run only counts as one for the reader. */
  predicate IsFill(r: Record) {
    r.phase.Fill? && r.status.Filled?
  }

  predicate IsIntent(r: Record) {
    r.phase.IntentPhase?
  }

  /**
   * The records of one cycle: none, or an intent, a preflight and possibly a result, of which only the last may
   * settle.
   */
  ghost predicate IsAttemptLog(norm: Status -> Status, rs: seq<Record>, attempt: string) {
    && (forall r :: r in rs ==> r.attempt == attempt)
    && (rs != [] ==> IsIntent(rs[0]))
    && (forall i :: 0 < i < |rs| ==> !IsIntent(rs[i]))
    && (forall i :: 0 <= i < |rs| - 1 ==> !Settling(norm, rs[i]) && !Fills(rs[i]))
    && (forall r :: r in rs && Settling(norm, r) ==> (IsFilledStatus(norm(r.status)) <==> Fills(r)))
    && (forall r :: r in rs && Fills(r) ==> Settling(norm, r))
  }

  /** The records of an attempt under any runtime: what preflight said, and what execution said if preflight passed. */
  function LogOf(w: World, intent: Intent, attempt: string, pre: Status, result: Option<Execution>): seq<Record> {
    Opening(w, intent, attempt, pre) +
    match result
    case None => []
    case Some(e) => [RecordOf(w, intent, attempt, FinalPhase(e.status), e.status, e.order, e.deal)]
  }

  lemma AnyRuntimeLogsOneAttempt(w: World, intent: Intent, attempt: string, pre: Status, result: Option<Execution>,
      norm: Status -> Status)
    requires KeepsWords(norm) && (result.Some? ==> pre.PrecheckOk?)
    ensures IsAttemptLog(norm, LogOf(w, intent, attempt, pre, result), attempt)
  {
  }

  lemma CycleIsALog(c: Config, w: World, attempt: string) returns (pre: Status, result: Option<Execution>)
    ensures result.Some? ==> pre.PrecheckOk?
    ensures var rs := CycleOf(c, w, attempt).executions;
            rs == [] || rs == LogOf(w, Decision(c, w), attempt, pre, result)
  {
    var intent := Decision(c, w);
    var volume := SizeOf(w, intent).volume;
    var p := PreflightOf(w, intent, volume);
    pre := p.status;
    result := if pre.PrecheckOk? then Some(ExecuteOf(c.allowLive, w, intent, volume, p).result) else None;
  }

  lemma CycleLogsOneAttempt(c: Config, w: World, attempt: string, norm: Status -> Status)
    requires KeepsWords(norm)
    ensures IsAttemptLog(norm, CycleOf(c, w, attempt).executions, attempt)
  {
    var pre, result := CycleIsALog(c, w, attempt);
    AnyRuntimeLogsOneAttempt(w, Decision(c, w), attempt, pre, result, norm);
  }

  /** Which attempts get settled: guard and precheck refusals, and results the writer or the reader calls final. */
  lemma AttemptIsSettledIff(w: World, intent: Intent, attempt: string, pre: Status, result: Option<Execution>,
      norm: Status -> Status)
    requires KeepsWords(norm) && (result.Some? <==> pre.PrecheckOk?)
    ensures (exists r :: r in LogOf(w, intent, attempt, pre, result) && Settling(norm, r)) <==>
            if result.None? then norm(pre).PrecheckRejected? || pre.GuardRejected?
            else FinalPhase(result.value.status).Fill? || norm(result.value.status).PrecheckRejected?
  {
    var log := LogOf(w, intent, attempt, pre, result);
    assert log[1] in log;
    if result.Some? {
      assert log[2] in log;
    }
  }

  // ---- Over a whole run ----

  /** A settling event is the last event of its attempt, and settles it as filled exactly when the writer says so. */
  ghost predicate SettlesOnce(norm: Status -> Status, rs: seq<Record>) {
    && (forall i, j :: 0 <= i < j < |rs| && rs[i].attempt == rs[j].attempt ==> !Settling(norm, rs[i]))
    && (forall r :: r in rs && Settling(norm, r) ==> (IsFilledStatus(norm(r.status)) <==> Fills(r)))
    && (forall r :: r in rs && Fills(r) ==> Settling(norm, r))
  }

  lemma FreshLogSettlesOnce(norm: Status -> Status, rs: seq<Record>, log: seq<Record>, attempt: string)
    requires SettlesOnce(norm, rs) && IsAttemptLog(norm, log, attempt) && forall r :: r in rs ==> r.attempt != attempt
    ensures SettlesOnce(norm, rs + log)
  {
    var all := rs + log;
    assert forall k :: 0 <= k < |rs| ==> all[k] in rs;
    assert forall k :: |rs| <= k < |all| ==> all[k] in log;
  }

  /** With fresh attempt ids, no run writes two settling events for one attempt, or any event after one. */
  lemma {:induction false} RunSettlesOnce(c: Config, ws: seq<World>, attempts: seq<string>, norm: Status -> Status)
    requires KeepsWords(norm) && |ws| == |attempts| && NoRepeats(attempts)
    ensures SettlesOnce(norm, RunOf(c, ws, attempts).executions)
    ensures forall r :: r in RunOf(c, ws, attempts).executions ==> r.attempt in attempts
  {
    if ws != [] {
      var n := |ws| - 1;
      RunSettlesOnce(c, ws[..n], attempts[..n], norm);
      CycleLogsOneAttempt(c, ws[n], attempts[n], norm);
      FreshLogSettlesOnce(norm, RunOf(c, ws[..n], attempts[..n]).executions,
        CycleOf(c, ws[n], attempts[n]).executions, attempts[n]);
    }
  }

  /** The places in the log of the records that have a property. */
  function Where(rs: seq<Record>, p: Record -> bool): seq<nat> {
    if rs == [] then [] else Where(rs[..|rs| - 1], p) + if p(rs[|rs| - 1]) then [|rs| - 1] else []
  }

  function SettlingBy(norm: Status -> Status): Record -> bool {
    (r: Record) => Settling(norm, r)
  }

  lemma {:induction false} WhereFindsThem(rs: seq<Record>, p: Record -> bool)
    ensures forall i :: i in Where(rs, p) <==> 0 <= i < |rs| && p(rs[i])
    ensures NoRepeats(Where(rs, p))
  {
    if rs != [] {
      WhereFindsThem(rs[..|rs| - 1], p);
      var before := Where(rs[..|rs| - 1], p);
      assert forall k :: 0 <= k < |before| ==> before[k] in before;
    }
  }

  lemma {:induction false} WhereAppend(rs: seq<Record>, more: seq<Record>, p: Record -> bool)
    ensures |Where(rs + more, p)| == |Where(rs, p)| + |Where(more, p)|
  {
    if more == [] {
      assert rs + more == rs;
    } else {
      WhereAppend(rs, more[..|more| - 1], p);
      assert (rs + more)[..|rs + more| - 1] == rs + more[..|more| - 1];
    }
  }

  lemma {:induction false} NoneFound(rs: seq<Record>, p: Record -> bool)
    requires forall i :: 0 <= i < |rs| ==> !p(rs[i])
    ensures Where(rs, p) == []
  {
    if rs != [] {
      NoneFound(rs[..|rs| - 1], p);
    }
  }

  lemma {:induction false} OnlyTheFirst(rs: seq<Record>, p: Record -> bool)
    requires rs != [] && p(rs[0]) && forall i :: 0 < i < |rs| ==> !p(rs[i])
    ensures |Where(rs, p)| == 1
  {
    if |rs| > 1 {
      OnlyTheFirst(rs[..|rs| - 1], p);
    }
  }

  lemma LogCounts(norm: Status -> Status, log: seq<Record>, attempt: string)
    requires IsAttemptLog(norm, log, attempt)
    ensures |Where(log, SettlingBy(norm))| <= |Where(log, IsIntent)|
    ensures log != [] ==> |Where(log, Fills)| == if Fills(log[|log| - 1]) then 1 else 0
  {
    if log != [] {
      NoneFound(log[..|log| - 1], SettlingBy(norm));
      NoneFound(log[..|log| - 1], Fills);
      OnlyTheFirst(log, IsIntent);
    }
  }

  /** The row of a real fill that names its order. */
  predicate LeavesAPosition(c: Config, w: World, rs: seq<Record>) {
    && rs != [] && IsFill(rs[|rs| - 1]) && rs[|rs| - 1].order.Some? && !Decision(c, w).action.CancelPending?
  }

  /** A cycle leaves one position event exactly when its last row is such a fill, and otherwise none. */
  lemma CyclePositionsAreFilled(c: Config, w: World, attempt: string)
    ensures var e := CycleOf(c, w, attempt);
            |e.positions| == if LeavesAPosition(c, w, e.executions) then 1 else 0
  {
  }

  /** Every property of records is at least as frequent as one that implies it. */
  lemma {:induction false} WhereWeaker(rs: seq<Record>, p: Record -> bool, q: Record -> bool)
    requires forall r :: r in rs && p(r) ==> q(r)
    ensures |Where(rs, p)| <= |Where(rs, q)|
  {
    if rs != [] {
      var n := |rs| - 1;
      assert rs[n] in rs && forall r :: r in rs[..n] ==> r in rs;
      WhereWeaker(rs[..n], p, q);
    }
  }

  lemma LastIsFound(rs: seq<Record>, p: Record -> bool)
    requires rs != [] && p(rs[|rs| - 1])
    ensures |Where(rs, p)| >= 1
  {
  }

  /** Settled attempts are at most the intents, and position events at most the real fills; dry runs leave none. */
  lemma {:induction false} RunCounts(c: Config, ws: seq<World>, attempts: seq<string>, norm: Status -> Status)
    requires KeepsWords(norm) && |ws| == |attempts|
    ensures var s := RunOf(c, ws, attempts);
            && |Where(s.executions, SettlingBy(norm))| <= |Where(s.executions, IsIntent)|
            && |s.positions| <= |Where(s.executions, IsFill)| <= |Where(s.executions, Fills)|
  {
    WhereWeaker(RunOf(c, ws, attempts).executions, IsFill, Fills);
    if ws != [] {
      var n := |ws| - 1;
      var s, e := RunOf(c, ws[..n], attempts[..n]), CycleOf(c, ws[n], attempts[n]);
      RunCounts(c, ws[..n], attempts[..n], norm);
      CycleLogsOneAttempt(c, ws[n], attempts[n], norm);
      LogCounts(norm, e.executions, attempts[n]);
      CyclePositionsAreFilled(c, ws[n], attempts[n]);
      if e.positions != [] {
        LastIsFound(e.executions, IsFill);
      }
      WhereAppend(s.executions, e.executions, SettlingBy(norm));
      WhereAppend(s.executions, e.executions, IsIntent);
      WhereAppend(s.executions, e.executions, IsFill);
    }
  }

  // ---- Reading the log back ----

  function SideText(s: Side): string {
    if s.Buy? then "buy" else "sell"
  }

  /** A stored row as the reader sees it; rows are numbered from one. */
  function ReadBack(norm: Status -> Status, r: Record, index: nat): ExecutionEvent {
    ExecutionEvent(Some(index + 1), Some(r.attempt), r.phase, norm(r.status), r.order, r.deal,
                   if r.symbol != "" && r.side.Some? then Some((Upper(r.symbol), SideText(r.side.value))) else None,
                     Some(r.polledAt))
  }

  function ReadAll(norm: Status -> Status, rs: seq<Record>): seq<ExecutionEvent> {
    seq(|rs|, i requires 0 <= i < |rs| => ReadBack(norm, rs[i], i))
  }

  lemma SettlesMeansSettling(norm: Status -> Status, rs: seq<Record>, i: nat, key: string)
    ensures Settles(ReadAll(norm, rs), i, key) <==> i < |rs| && Settling(norm, rs[i]) && rs[i].attempt == key
  {
  }

  /** The row that settles an attempt is the one the reader keeps for it. */
  lemma ReaderKeepsTheSettlingRow(norm: Status -> Status, rs: seq<Record>, a: Attempts, key: string, i: nat)
    requires SettlesOnce(norm, rs) && HoldsLatest(a, ReadAll(norm, rs))
    requires key in a.latest || (i < |rs| && Settling(norm, rs[i]) && rs[i].attempt == key)
    ensures key in a.latest
    ensures var c := a.latest[key];
            && c.token.index < |rs| && Settling(norm, rs[c.token.index]) && rs[c.token.index].attempt == key
            && c.row.status == norm(rs[c.token.index].status) && c.token.id == c.token.index + 1
            && (i < |rs| && Settling(norm, rs[i]) && rs[i].attempt == key ==> c.token.index == i)
  {
    SettlesMeansSettling(norm, rs, i, key);
    var j := a.latest[key].token.index;
    SettlesMeansSettling(norm, rs, j, key);
  }

  function Indices(cs: seq<Candidate>): seq<nat> {
    seq(|cs|, k requires 0 <= k < |cs| => cs[k].token.index)
  }

  function Kept(a: Attempts): seq<Candidate>
    requires forall k :: k in a.order ==> k in a.latest
  {
    seq(|a.order|, k requires 0 <= k < |a.order| => a.latest[a.order[k]])
  }

  /** The reader counts each settled attempt once. */
  lemma BridgeCountsSettledAttempts(norm: Status -> Status, rs: seq<Record>)
    requires SettlesOnce(norm, rs)
    ensures |AttemptsOf(ReadAll(norm, rs)).order| == |Where(rs, SettlingBy(norm))|
  {
    LatestTerminalEventWins(ReadAll(norm, rs));
    SettledAttemptsAreTheRows(norm, rs, AttemptsOf(ReadAll(norm, rs)));
  }

  lemma SettledAttemptsAreTheRows(norm: Status -> Status, rs: seq<Record>, a: Attempts)
    requires SettlesOnce(norm, rs) && HoldsLatest(a, ReadAll(norm, rs))
    ensures |a.order| == |Where(rs, SettlingBy(norm))|
  {
    var kept, rows := Indices(Kept(a)), Where(rs, SettlingBy(norm));
    WhereFindsThem(rs, SettlingBy(norm));
    forall k | 0 <= k < |kept| ensures kept[k] in rows && rs[kept[k]].attempt == a.order[k] {
      assert a.order[k] in a.order;
      ReaderKeepsTheSettlingRow(norm, rs, a, a.order[k], 0);
    }
    assert NoRepeats(kept);
    forall i | i in rows ensures i in kept {
      ReaderKeepsTheSettlingRow(norm, rs, a, rs[i].attempt, i);
      var k :| 0 <= k < |a.order| && a.order[k] == rs[i].attempt;
      assert kept[k] == i;
    }
    NoRepeatsFit(kept, rows);
    NoRepeatsFit(rows, kept);
  }

  /** The fills the reader matches are exactly the rows the writer recorded as filled. */
  lemma BridgeFillsAreTheWritersFills(norm: Status -> Status, rs: seq<Record>, a: Attempts)
    requires SettlesOnce(norm, rs) && a == AttemptsOf(ReadAll(norm, rs))
    ensures HoldsLatest(a, ReadAll(norm, rs))
    ensures var fills, rows := FillsUpTo(a, |a.order|), Where(rs, Fills);
            && |fills| == |rows| && NoRepeats(Indices(fills)) && (forall i :: i in Indices(fills) <==> i in rows)
            && (forall c :: c in fills ==> c.token.id == c.token.index + 1)
  {
    LatestTerminalEventWins(ReadAll(norm, rs));
    FillsAreTheRows(norm, rs, a);
  }

  lemma SameMembersSameSize<T>(xs: seq<T>, ys: seq<T>)
    requires NoRepeats(xs) && NoRepeats(ys) && forall x :: x in xs <==> x in ys
    ensures |xs| == |ys|
  {
    NoRepeatsFit(xs, ys);
    NoRepeatsFit(ys, xs);
  }

  lemma FillsAreTheRows(norm: Status -> Status, rs: seq<Record>, a: Attempts)
    requires SettlesOnce(norm, rs) && HoldsLatest(a, ReadAll(norm, rs))
    ensures var fills, rows := FillsUpTo(a, |a.order|), Where(rs, Fills);
            && |fills| == |rows| && NoRepeats(Indices(fills)) && (forall i :: i in Indices(fills) <==> i in rows)
            && (forall c :: c in fills ==> c.token.id == c.token.index + 1)
  {
    var fills, rows := FillsUpTo(a, |a.order|), Where(rs, Fills);
    WhereFindsThem(rs, Fills);
    FillsHaveDistinctTokens(ReadAll(norm, rs), a, |a.order|);
    forall c | c in fills
      ensures c.token.index in rows && c.token.id == c.token.index + 1
    {
      FillIsARow(norm, rs, a, c);
    }
    forall i | i in rows ensures i in Indices(fills) {
      RowIsAFill(norm, rs, a, i);
    }
    DistinctIndices(fills);
    SameMembersSameSize(Indices(fills), rows);
  }

  lemma DistinctIndices(fills: seq<Candidate>)
    requires DistinctTokens(fills) && forall c :: c in fills ==> c.token.id == c.token.index + 1
    ensures NoRepeats(Indices(fills))
    ensures forall i :: i in Indices(fills) ==> exists c :: c in fills && c.token.index == i
  {
    var kept := Indices(fills);
    forall i, j | 0 <= i < j < |kept| ensures kept[i] != kept[j] {
      assert fills[i] in fills && fills[j] in fills && fills[i].token != fills[j].token;
    }
    forall i | i in kept ensures exists c :: c in fills && c.token.index == i {
      var k :| 0 <= k < |kept| && kept[k] == i;
      assert fills[k] in fills;
    }
  }

  lemma FillIsARow(norm: Status -> Status, rs: seq<Record>, a: Attempts, c: Candidate)
    requires SettlesOnce(norm, rs) && HoldsLatest(a, ReadAll(norm, rs)) && c in FillsUpTo(a, |a.order|)
    ensures c.token.index < |rs| && Fills(rs[c.token.index]) && c.token.id == c.token.index + 1
  {
    FillsComeFromTheirAttempts(ReadAll(norm, rs), a, |a.order|);
    var k :| 0 <= k < |a.order| && a.latest[a.order[k]] == c;
    assert a.order[k] in a.order;
    ReaderKeepsTheSettlingRow(norm, rs, a, a.order[k], 0);
    assert rs[c.token.index] in rs;
  }

  lemma RowIsAFill(norm: Status -> Status, rs: seq<Record>, a: Attempts, i: nat)
    requires SettlesOnce(norm, rs) && HoldsLatest(a, ReadAll(norm, rs)) && i < |rs| && Fills(rs[i])
    ensures i in Indices(FillsUpTo(a, |a.order|))
  {
    assert rs[i] in rs;
    FillsComeFromTheirAttempts(ReadAll(norm, rs), a, |a.order|);
    ReaderKeepsTheSettlingRow(norm, rs, a, rs[i].attempt, i);
    var k :| 0 <= k < |a.order| && a.order[k] == rs[i].attempt;
    var c, fills := a.latest[a.order[k]], FillsUpTo(a, |a.order|);
    assert c in fills;
    var m :| 0 <= m < |fills| && fills[m] == c;
    assert Indices(fills)[m] == i;
  }

  /** Writer and reader agree on every run: attempts are bounded by intents, and position events by fills. */
  lemma ReaderAgreesWithWriter(c: Config, ws: seq<World>, attempts: seq<string>, norm: Status -> Status)
    requires KeepsWords(norm) && |ws| == |attempts| && NoRepeats(attempts)
    ensures var s, a := RunOf(c, ws, attempts), AttemptsOf(ReadAll(norm, RunOf(c, ws, attempts).executions));
            && HoldsLatest(a, ReadAll(norm, s.executions))
            && |a.order| == |Where(s.executions, SettlingBy(norm))| <= |Where(s.executions, IsIntent)|
            && |s.positions| <= |Where(s.executions, IsFill)| <= |Where(s.executions, Fills)|
            && |Where(s.executions, Fills)| == |FillsUpTo(a, |a.order|)|
  {
    var rs := RunOf(c, ws, attempts).executions;
    RunSettlesOnce(c, ws, attempts, norm);
    RunCounts(c, ws, attempts, norm);
    BridgeCountsSettledAttempts(norm, rs);
    BridgeFillsAreTheWritersFills(norm, rs, AttemptsOf(ReadAll(norm, rs)));
  }
}
