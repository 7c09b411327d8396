/** What a group of position events says, which events form one, and which groups and attempts are reported. */
module FillGroups {
  import opened Prelude
  import opened Present
  import opened ExecutionBridge
  import opened FillMatching

  // ---- The columns of a position event ----

  function BrokerId(e: PositionEvent): Option<string> { e.brokerPositionId }
  function Deal(e: PositionEvent): Option<string> { e.dealTicket }
  function Attempt(e: PositionEvent): Option<string> { e.attemptId }
  function Symbol(e: PositionEvent): Option<string> { e.symbol }
  function SideOf(e: PositionEvent): Option<string> { e.side }
  function Opened(e: PositionEvent): Option<int> { e.openedAt }
  function Pnl(e: PositionEvent): Option<real> { e.pnl }
  function CommissionOf(e: PositionEvent): real { if e.commission == None then 0.0 else e.commission.value }
  function SwapOf(e: PositionEvent): real { if e.swap == None then 0.0 else e.swap.value }

  predicate SaysClosed(status: string) {
    status in {"CLOSED", "CLOSE", "CLOSED_OUT", "EXITED", "SETTLED"}
  }

  function Shut(e: PositionEvent): Option<int> {
    if e.closedAt == None && (SaysClosed(e.status) || e.rowHasPnl || e.rowHasExitPrice) then e.polledAt else e.closedAt
  }

  /** The lowest, or with `-1` the highest, present value of a field. */
  ghost predicate IsExtreme(at: Option<int>, sign: int, es: seq<PositionEvent>, field: PositionEvent -> Option<int>) {
    && (at == None <==> NeverPresent(es, field))
    && (at != None ==> exists i :: 0 <= i < |es| && field(es[i]) == at)
    && (forall i :: 0 <= i < |es| && field(es[i]) != None && at != None ==>
          sign * at.value <= sign * field(es[i]).value)
  }

  ghost predicate TellsIds(g: Aggregate, es: seq<PositionEvent>) {
    && g.positionId == First(es, BrokerId) && g.dealTicket == First(es, Deal) && g.attemptId == First(es, Attempt)
    && g.symbol == First(es, Symbol) && g.side == First(es, SideOf)
  }

  ghost predicate TellsTimes(g: Aggregate, es: seq<PositionEvent>) {
    IsExtreme(g.openedAt, 1, es, Opened) && IsExtreme(g.closedAt, -1, es, Shut)
  }

  ghost predicate TellsCash(g: Aggregate, es: seq<PositionEvent>) {
    g.pnl == Last(es, Pnl) && g.commission == SumBy(es, CommissionOf) && g.swap == SumBy(es, SwapOf)
  }

  ghost predicate TellsStatuses(g: Aggregate, es: seq<PositionEvent>) {
    forall s :: s in g.statuses <==> s != "" && exists i :: 0 <= i < |es| && es[i].status == s
  }

  /** A group is its events in brief: first ids, earliest opening, latest closing, last profit, total costs. */
  ghost predicate TellsGroup(g: Aggregate, es: seq<PositionEvent>) {
    TellsIds(g, es) && TellsTimes(g, es) && TellsCash(g, es) && TellsStatuses(g, es)
  }

  lemma ExtremeGrows(at: Option<int>, sign: int, es: seq<PositionEvent>, field: PositionEvent -> Option<int>,
      e: PositionEvent, next: Option<int>)
    requires sign == 1 || sign == -1
    requires IsExtreme(at, sign, es, field)
    requires next == if field(e) != None && (at == None || sign * field(e).value < sign * at.value)
                     then field(e) else at
    ensures IsExtreme(next, sign, es + [e], field)
  {
    var longer := es + [e];
    assert longer[|es|] == e;
    if exists i :: 0 <= i < |es| && field(es[i]) == at {
      var i :| 0 <= i < |es| && field(es[i]) == at;
      assert longer[i] == es[i];
    }
    assert forall i :: 0 <= i < |es| ==> longer[i] == es[i];
  }

  lemma FoldTellsIds(g: Aggregate, es: seq<PositionEvent>, e: PositionEvent)
    requires TellsIds(g, es)
    ensures TellsIds(Fold(g, e), es + [e])
  {
    FirstAppend(es, e, BrokerId);
    FirstAppend(es, e, Deal);
    FirstAppend(es, e, Attempt);
    FirstAppend(es, e, Symbol);
    FirstAppend(es, e, SideOf);
  }

  lemma FoldTellsTimes(g: Aggregate, es: seq<PositionEvent>, e: PositionEvent)
    requires TellsTimes(g, es)
    ensures TellsTimes(Fold(g, e), es + [e])
  {
    ExtremeGrows(g.openedAt, 1, es, Opened, e, Fold(g, e).openedAt);
    ExtremeGrows(g.closedAt, -1, es, Shut, e, Fold(g, e).closedAt);
  }

  lemma FoldTellsCash(g: Aggregate, es: seq<PositionEvent>, e: PositionEvent)
    requires TellsCash(g, es)
    ensures TellsCash(Fold(g, e), es + [e])
  {
    LastAppend(es, e, Pnl);
    SumByAppend(es, e, CommissionOf);
    SumByAppend(es, e, SwapOf);
  }

  lemma StatusGrows(statuses: set<string>, es: seq<PositionEvent>, e: PositionEvent, s: string)
    requires s in statuses <==> s != "" && exists i :: 0 <= i < |es| && es[i].status == s
    ensures s in statuses || s == e.status != "" <==>
              s != "" && exists i :: 0 <= i < |es + [e]| && (es + [e])[i].status == s
  {
    var all := es + [e];
    assert all[|es|] == e;
    if exists i :: 0 <= i < |es| && es[i].status == s {
      var i :| 0 <= i < |es| && es[i].status == s;
      assert all[i].status == s;
    }
  }

  lemma FoldTellsStatuses(g: Aggregate, es: seq<PositionEvent>, e: PositionEvent)
    requires TellsStatuses(g, es)
    ensures TellsStatuses(Fold(g, e), es + [e])
  {
    forall s
      ensures s in g.statuses || s == e.status != "" <==>
                s != "" && exists i :: 0 <= i < |es + [e]| && (es + [e])[i].status == s
    {
      StatusGrows(g.statuses, es, e, s);
    }
  }

  lemma FoldTells(g: Aggregate, es: seq<PositionEvent>, e: PositionEvent)
    requires TellsGroup(g, es)
    ensures TellsGroup(Fold(g, e), es + [e])
  {
    FoldTellsIds(g, es, e);
    FoldTellsTimes(g, es, e);
    FoldTellsCash(g, es, e);
    FoldTellsStatuses(g, es, e);
  }

  // ---- Groups ----

  /** The events of one group, in order. */
  function GroupEvents(events: seq<PositionEvent>, key: string): seq<PositionEvent> {
    if events == [] then []
    else
      var n := |events| - 1;
      GroupEvents(events[..n], key) + if PositionKey(events[n], n) == key then [events[n]] else []
  }

  /** What the group stored under `k` says about its events; without events there is no group. */
  ghost predicate StoredTells(groups: map<string, Aggregate>, events: seq<PositionEvent>, k: string) {
    if k in groups then TellsGroup(groups[k], GroupEvents(events, k)) else GroupEvents(events, k) == []
  }

  lemma GroupAppend(events: seq<PositionEvent>, e: PositionEvent, key: string, k: string)
    requires key == PositionKey(e, |events|)
    ensures GroupEvents(events + [e], k)
         == if key == k then GroupEvents(events, k) + [e] else GroupEvents(events, k)
  {
    assert (events + [e])[..|events|] == events;
  }

  lemma CollectTells(gs: Groups, events: seq<PositionEvent>, e: PositionEvent, key: string, k: string)
    requires key == PositionKey(e, |events|) && StoredTells(gs.byKey, events, k)
    ensures StoredTells(Collect(gs, key, e).byKey, events + [e], k)
  {
    GroupAppend(events, e, key, k);
    var groups, after := gs.byKey, Collect(gs, key, e).byKey;
    if k == key {
      var g := if key in groups then groups[key] else NEW;
      NewTellsNothing();
      FoldTells(g, GroupEvents(events, key), e);
      assert after[key] == Fold(g, e);
    } else {
      assert k in after <==> k in groups;
      assert k in groups ==> after[k] == groups[k];
    }
  }

  /** Every group says what its events say. */
  lemma {:induction false} GroupsTellTheirEvents(events: seq<PositionEvent>, key: string)
    ensures StoredTells(GroupsOf(events).byKey, events, key)
  {
    if events != [] {
      var n := |events| - 1;
      GroupsTellTheirEvents(events[..n], key);
      CollectTells(GroupsOf(events[..n]), events[..n], events[n], PositionKey(events[n], n), key);
      Snoc(events);
    }
  }

  lemma NewTellsNothing()
    ensures TellsGroup(NEW, [])
  {
  }

  /** Broker ids decide first which events belong together, then deal tickets. */
  lemma KeysFollowTheIds(e: PositionEvent, i: nat, f: PositionEvent, j: nat)
    ensures e.brokerPositionId != None ==>
              (PositionKey(e, i) == PositionKey(f, j) <==> f.brokerPositionId == e.brokerPositionId)
    ensures e.brokerPositionId == None && f.brokerPositionId == None && e.dealTicket != None ==>
              (PositionKey(e, i) == PositionKey(f, j) <==> f.dealTicket == e.dealTicket)
    ensures e.brokerPositionId == None && e.dealTicket == None && f.brokerPositionId == None && f.dealTicket == None
            && e.openedText != None && e.symbol != None && e.side != None
            && (e.symbol, e.side, e.openedText) == (f.symbol, f.side, f.openedText) ==>
              PositionKey(e, i) == PositionKey(f, j)
  {
    KindsDiffer(e, i);
    KindsDiffer(f, j);
    if e.brokerPositionId != None && f.brokerPositionId != None {
      SamePrefix("broker:", e.brokerPositionId.value, f.brokerPositionId.value);
    }
    if e.dealTicket != None && f.dealTicket != None {
      SamePrefix("deal:", e.dealTicket.value, f.dealTicket.value);
    }
  }

  lemma KindsDiffer(e: PositionEvent, i: nat)
    ensures |PositionKey(e, i)| > 0
    ensures PositionKey(e, i)[0]
         == (if e.brokerPositionId != None then 'b' else if e.dealTicket != None then 'd' else 's')
  {
  }

  lemma SamePrefix(prefix: string, a: string, b: string)
    ensures prefix + a == prefix + b <==> a == b
  {
    assert (prefix + a)[|prefix|..] == a && (prefix + b)[|prefix|..] == b;
  }

  // ---- Reported groups ----

  predicate Ended(g: Aggregate) {
    g.closedAt != None || g.pnl != None || exists s :: s in g.statuses && SaysClosed(s)
  }

  function EndedOnes(groups: seq<Aggregate>): seq<Aggregate> {
    if groups == [] then []
    else EndedOnes(groups[..|groups| - 1]) + if Ended(groups[|groups| - 1]) then [groups[|groups| - 1]] else []
  }

  function PositionsOf(records: seq<Record>): seq<Aggregate> {
    seq(|records|, i requires 0 <= i < |records| => records[i].position)
  }

  /** The records are the ended groups in their order; the others are skipped. */
  lemma {:induction false} RecordsAreTheEndedGroups(fills: seq<Candidate>, groups: seq<Aggregate>)
    ensures var p := PairAll(fills, groups);
            PositionsOf(p.records) == EndedOnes(groups) && p.skipped == |groups| - |EndedOnes(groups)|
  {
    if groups != [] {
      var g := groups[|groups| - 1];
      RecordsAreTheEndedGroups(fills, groups[..|groups| - 1]);
      assert HasExit(g) <==> Ended(g);
    }
  }

  // ---- Attempts ----

  /** The candidate of an attempt carries the highest execution id among its settling events, then the last row. */
  lemma TheLatestHasTheHighestId(events: seq<ExecutionEvent>, i: nat, key: string)
    requires Settles(events, i, key)
    ensures var a := AttemptsOf(events);
            && key in a.latest
            && var t := a.latest[key].token;
               t.index < |events| && a.latest[key].row == events[t.index]
               && t.id == (if events[t.index].executionId != None then events[t.index].executionId.value else t.index)
               && var id := if events[i].executionId != None then events[i].executionId.value else i;
                  t.id > id || (t.id == id && t.index >= i)
  {
    LatestTerminalEventWins(events);
    var a := AttemptsOf(events);
    assert NotOlder(a, key, TokenOf(events[i], i));
    assert IsCandidateOf(events, a.latest[key], key);
  }

  /** Which events settle an attempt. */
  lemma SettlingEventsAre(e: ExecutionEvent)
    ensures IsTerminal(e.phase, e.status) <==>
              || e.phase in {Fill, Guard}
              || e.status == PrecheckRejected
              || (e.phase == NoPhase && e.status in {Filled, DryRunOk, Rejected, Error, GuardRejected})
  {
  }

  /** Attempts are counted as filled and as rejected by the status of their latest settling event alone. */
  lemma {:induction false} FillsAreTheFilledAttempts(a: Attempts, n: nat)
    requires n <= |a.order| && forall k :: k in a.order ==> k in a.latest
    ensures forall c :: c in FillsUpTo(a, n) <==>
              exists i :: 0 <= i < n && a.latest[a.order[i]] == c && c.row.status in {Filled, DryRunOk}
  {
    if n > 0 {
      FillsAreTheFilledAttempts(a, n - 1);
    }
  }

  predicate IsTurnedDown(status: Status) {
    status in {Rejected, Error, PrecheckRejected, GuardRejected}
  }

  /** The attempts among the first `n` that were turned down. */
  ghost function TurnedDown(a: Attempts, n: nat): set<int>
    requires n <= |a.order| && forall k :: k in a.order ==> k in a.latest
  {
    set i | 0 <= i < n && IsTurnedDown(a.latest[a.order[i]].row.status)
  }

  lemma TurnedDownNext(a: Attempts, n: nat, down: bool)
    requires 0 < n <= |a.order| && forall k :: k in a.order ==> k in a.latest
    requires down == IsTurnedDown(a.latest[a.order[n - 1]].row.status)
    ensures n - 1 !in TurnedDown(a, n - 1)
    ensures TurnedDown(a, n) == if down then TurnedDown(a, n - 1) + {n - 1} else TurnedDown(a, n - 1)
  {
  }

  lemma {:induction false} RejectionsAreTheTurnedDown(a: Attempts, n: nat)
    requires n <= |a.order| && forall k :: k in a.order ==> k in a.latest
    ensures RejectedUpTo(a, n) == |TurnedDown(a, n)|
  {
    if n > 0 {
      RejectionsAreTheTurnedDown(a, n - 1);
      TurnedDownNext(a, n, IsTurnedDown(a.latest[a.order[n - 1]].row.status));
    }
  }

  predicate IsDigits(s: string) {
    forall i :: 0 <= i < |s| ==> '0' <= s[i] <= '9'
  }

  lemma {:induction false} DecimalsAreDigits(n: nat)
    ensures IsDigits(Decimal(n)) && Decimal(n) != []
  {
    if n >= 10 {
      DecimalsAreDigits(n / 10);
    }
    assert DIGITS[n % 10] == '0' + (n % 10) as char;
  }

  lemma DecimalEndsInItsDigit(n: nat)
    ensures var s := Decimal(n);
            && s != [] && s[|s| - 1] == '0' + (n % 10) as char
            && s[..|s| - 1] == (if n < 10 then [] else Decimal(n / 10))
  {
    assert DIGITS[n % 10] == '0' + (n % 10) as char;
  }

  lemma {:induction false} DecimalsDiffer(m: nat, n: nat)
    requires Decimal(m) == Decimal(n)
    ensures m == n
  {
    DecimalEndsInItsDigit(m);
    DecimalEndsInItsDigit(n);
    DecimalsAreDigits(m / 10);
    DecimalsAreDigits(n / 10);
    if m >= 10 && n >= 10 {
      DecimalsDiffer(m / 10, n / 10);
    }
  }

  lemma LongerHoldsTheDash(p: string, q: string, a: string, b: string)
    requires (p + "-") + a == (q + "-") + b && |a| < |b|
    ensures '-' in b
  {
    var s, t := (p + "-") + a, (q + "-") + b;
    assert s[|p|] == '-' && t[|p|] == b[|p| - |q| - 1];
  }

  lemma DigitsAfterTheDash(p: string, q: string, a: string, b: string)
    requires IsDigits(a) && IsDigits(b) && (p + "-") + a == (q + "-") + b
    ensures a == b
  {
    if |a| < |b| {
      LongerHoldsTheDash(p, q, a, b);
    }
    if |b| < |a| {
      LongerHoldsTheDash(q, p, b, a);
    }
    assert ((p + "-") + a)[|p| + 1..] == a && ((q + "-") + b)[|q| + 1..] == b;
  }

  /** Settling events without an attempt id are attempts of their own. */
  lemma NamelessEventsStandAlone(e: ExecutionEvent, i: nat, f: ExecutionEvent, j: nat)
    requires e.attemptId == None && f.attemptId == None && AttemptKey(e, i) == AttemptKey(f, j)
    ensures i == j
  {
    DecimalsAreDigits(i);
    DecimalsAreDigits(j);
    DigitsAfterTheDash("legacy-" + Signed(TokenOf(e, i).id), "legacy-" + Signed(TokenOf(f, j).id),
                       Decimal(i), Decimal(j));
    DecimalsDiffer(i, j);
  }
}
