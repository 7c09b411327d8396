/** Closed positions are paired with filled attempts: greedily, injectively, and leaving no linked pair apart. */
module FillMatching {
  import opened Prelude
  import opened ExecutionBridge

  // ---- Position events, grouped ----

  /** A position event after coalescing; `openedText` and `openedAt` fall back to the polling time. */
  datatype PositionEvent = PositionEvent(
    brokerPositionId: Option<string>, dealTicket: Option<string>, attemptId: Option<string>,
    symbol: Option<string>, side: Option<string>, openedText: Option<string>, openedAt: Option<int>,
    closedAt: Option<int>, polledAt: Option<int>, status: string, rowHasPnl: bool, rowHasExitPrice: bool,
    pnl: Option<real>, commission: Option<real>, swap: Option<real>)

  datatype Aggregate = Aggregate(
    positionId: Option<string>, dealTicket: Option<string>, attemptId: Option<string>, symbol: Option<string>,
    side: Option<string>, openedAt: Option<int>, closedAt: Option<int>, pnl: Option<real>, statuses: set<string>,
    commission: real, swap: real)

  const NEW := Aggregate(None, None, None, None, None, None, None, None, {}, 0.0, 0.0)

  predicate IsClosedPositionStatus(status: string) {
    status == "CLOSED" || status == "CLOSE" || status == "CLOSED_OUT" || status == "EXITED" || status == "SETTLED"
  }

  function TextOr(a: Option<string>, default: string): string {
    if a.Some? then a.value else default
  }

  function PositionKey(e: PositionEvent, index: nat): string {
    if e.brokerPositionId.Some? then "broker:" + e.brokerPositionId.value
    else if e.dealTicket.Some? then "deal:" + e.dealTicket.value
    else
      "synthetic:" + TextOr(e.symbol, "unknown") + ":" + TextOr(e.side, "unknown") + ":"
      + TextOr(e.openedText, "row-" + Decimal(index))
  }

  /** The polling time stands in for the closing time of an event that shows an exit. */
  function ClosedAt(e: PositionEvent): Option<int> {
    if e.closedAt.Some? then e.closedAt
    else if IsClosedPositionStatus(e.status) || e.rowHasPnl || e.rowHasExitPrice then e.polledAt
    else None
  }

  function Fold(g: Aggregate, e: PositionEvent): Aggregate {
    Aggregate(
      Or(g.positionId, e.brokerPositionId), Or(g.dealTicket, e.dealTicket), Or(g.attemptId, e.attemptId),
      Or(g.symbol, e.symbol), Or(g.side, e.side),
      if e.openedAt.Some? && (g.openedAt.None? || e.openedAt.value < g.openedAt.value) then e.openedAt else g.openedAt,
      if ClosedAt(e).Some? && (g.closedAt.None? || ClosedAt(e).value > g.closedAt.value)
      then ClosedAt(e) else g.closedAt,
      Or(e.pnl, g.pnl), if e.status == "" then g.statuses else g.statuses + {e.status},
      g.commission + Cash(e.commission), g.swap + Cash(e.swap))
  }

  datatype Groups = Groups(order: seq<string>, byKey: map<string, Aggregate>)

  function Collect(gs: Groups, key: string, e: PositionEvent): Groups {
    if key in gs.byKey then Groups(gs.order, gs.byKey[key := Fold(gs.byKey[key], e)])
    else Groups(gs.order + [key], gs.byKey[key := Fold(NEW, e)])
  }

  function GroupsOf(events: seq<PositionEvent>): Groups {
    if events == [] then Groups([], map[])
    else
      var n := |events| - 1;
      Collect(GroupsOf(events[..n]), PositionKey(events[n], n), events[n])
  }

  predicate HasExit(g: Aggregate) {
    g.closedAt.Some? || g.pnl.Some? || exists s :: s in g.statuses && IsClosedPositionStatus(s)
  }

  predicate ShowsExit(e: PositionEvent) {
    ClosedAt(e).Some? || e.pnl.Some? || IsClosedPositionStatus(e.status)
  }

  ghost predicate InGroup(events: seq<PositionEvent>, i: nat, key: string) {
    i < |events| && PositionKey(events[i], i) == key
  }

  ghost predicate KeysMatch(gs: Groups) {
    && (forall i, j :: 0 <= i < j < |gs.order| ==> gs.order[i] != gs.order[j])
    && (forall k :: k in gs.order <==> k in gs.byKey)
  }

  /** A group counts as closed exactly when one of its events shows an exit. */
  ghost predicate ExitsAreShown(gs: Groups, events: seq<PositionEvent>) {
    && KeysMatch(gs)
    && (forall i: nat, k :: InGroup(events, i, k) ==> k in gs.byKey && (ShowsExit(events[i]) ==> HasExit(gs.byKey[k])))
    && (forall k :: k in gs.byKey && HasExit(gs.byKey[k]) ==>
          exists i: nat :: InGroup(events, i, k) && ShowsExit(events[i]))
  }

  lemma FoldShowsExit(g: Aggregate, e: PositionEvent)
    ensures HasExit(Fold(g, e)) <==> HasExit(g) || ShowsExit(e)
  {
    var f := Fold(g, e);
    if HasExit(g) && !g.closedAt.Some? && !g.pnl.Some? {
      var s :| s in g.statuses && IsClosedPositionStatus(s);
      assert s in f.statuses;
    }
    if IsClosedPositionStatus(e.status) {
      assert e.status in f.statuses;
    }
  }

  lemma CollectShowsExits(gs: Groups, events: seq<PositionEvent>, key: string, e: PositionEvent)
    requires ExitsAreShown(gs, events) && key == PositionKey(e, |events|)
    ensures ExitsAreShown(Collect(gs, key, e), events + [e])
  {
    var after, all := Collect(gs, key, e), events + [e];
    FoldShowsExit(if key in gs.byKey then gs.byKey[key] else NEW, e);
    assert !HasExit(NEW);
    forall i: nat, k | InGroup(all, i, k) ensures k in after.byKey && (ShowsExit(all[i]) ==> HasExit(after.byKey[k])) {
      assert i < |events| ==> InGroup(events, i, k);
    }
    forall k | k in after.byKey && HasExit(after.byKey[k])
      ensures exists i: nat :: InGroup(all, i, k) && ShowsExit(all[i])
    {
      if k in gs.byKey && HasExit(gs.byKey[k]) {
        var i: nat :| InGroup(events, i, k) && ShowsExit(events[i]);
        assert InGroup(all, i, k) && ShowsExit(all[i]);
      } else {
        assert InGroup(all, |events|, k) && ShowsExit(all[|events|]);
      }
    }
  }

  lemma {:induction false} GroupsShowTheirExits(events: seq<PositionEvent>)
    ensures ExitsAreShown(GroupsOf(events), events)
  {
    if events != [] {
      var n := |events| - 1;
      GroupsShowTheirExits(events[..n]);
      CollectShowsExits(GroupsOf(events[..n]), events[..n], PositionKey(events[n], n), events[n]);
      Snoc(events);
    }
  }

  // ---- Choosing a fill ----

  /** Seconds between a fill and the opening of the position; a fill without a time is infinitely far. */
  function Distance(c: Candidate, target: int): Option<nat> {
    if c.row.time.None? then None
    else Some(if c.row.time.value >= target then c.row.time.value - target else target - c.row.time.value)
  }

  predicate Nearer(a: Option<nat>, b: Option<nat>) {
    a.Some? && (b.None? || a.value < b.value)
  }

  /** A strictly better choice: nearer in time if there is a target, else and on ties the higher token. */
  predicate Better(target: Option<int>, a: Candidate, b: Candidate) {
    match target
    case None => TokenLess(b.token, a.token)
    case Some(t) =>
      Nearer(Distance(a, t), Distance(b, t)) || (Distance(a, t) == Distance(b, t) && TokenLess(b.token, a.token))
  }

  function Best(candidates: seq<Candidate>, used: set<Token>, target: Option<int>): Option<Candidate> {
    if candidates == [] then None
    else
      var best, c := Best(candidates[..|candidates| - 1], used, target), candidates[|candidates| - 1];
      if c.token in used then best
      else if best.None? || Better(target, c, best.value) then Some(c)
      else best
  }

  lemma {:induction false} BestIsOptimal(candidates: seq<Candidate>, used: set<Token>, target: Option<int>)
    ensures var best := Best(candidates, used, target);
            && (best.None? <==> forall c :: c in candidates ==> c.token in used)
            && (best.Some? ==> best.value in candidates && best.value.token !in used)
            && (best.Some? ==> forall c :: c in candidates && c.token !in used ==> !Better(target, c, best.value))
  {
    if candidates != [] {
      var n := |candidates| - 1;
      BestIsOptimal(candidates[..n], used, target);
      Snoc(candidates);
      assert forall c :: c in candidates <==> c in candidates[..n] || c == candidates[n];
    }
  }

  method TakeFillCandidate(candidates: seq<Candidate>, used: set<Token>, target: Option<int>)
    returns (chosen: Option<Candidate>, usedNow: set<Token>)
    ensures chosen == Best(candidates, used, target)
    ensures usedNow == if chosen.Some? then used + {chosen.value.token} else used
  {
    chosen := None;
    for n := 0 to |candidates|
      invariant chosen == Best(candidates[..n], used, target)
    {
      assert candidates[..n + 1][..n] == candidates[..n];
      var c := candidates[n];
      if c.token !in used && (chosen.None? || Better(target, c, chosen.value)) {
        chosen := Some(c);
      }
    }
    assert candidates[..|candidates|] == candidates;
    usedNow := if chosen.Some? then used + {chosen.value.token} else used;
  }

  function Instrument(g: Aggregate): Option<(string, string)> {
    if g.symbol.Some? && g.side.Some? then Some((Upper(g.symbol.value), g.side.value)) else None
  }

  function Try<K(==)>(fills: seq<Candidate>, key: Candidate -> Option<K>, k: Option<K>, used: set<Token>,
      target: Option<int>): Option<Candidate> {
    if k.None? then None else Best(Listed(fills, key, k.value), used, target)
  }

  /** By order ticket, then deal ticket, then attempt id, then symbol and side. */
  function Match(fills: seq<Candidate>, g: Aggregate, used: set<Token>): Option<Candidate> {
    Or(Try(fills, OrderOf, g.positionId, used, g.openedAt),
    Or(Try(fills, DealOf, g.dealTicket, used, g.openedAt),
    Or(Try(fills, AttemptOf, g.attemptId, used, g.openedAt),
       Try(fills, InstrumentOf, Instrument(g), used, g.openedAt))))
  }

  method MatchFillEvent(g: Aggregate, lookups: Lookups, ghost fills: seq<Candidate>, used: set<Token>)
    returns (chosen: Option<Candidate>, usedNow: set<Token>)
    requires Indexed(lookups, fills)
    ensures chosen == Match(fills, g, used)
    ensures usedNow == if chosen.Some? then used + {chosen.value.token} else used
  {
    chosen, usedNow := None, used;
    if g.positionId.Some? {
      chosen, usedNow := TakeFillCandidate(Get(lookups.order, g.positionId.value), used, g.openedAt);
    }
    if chosen.None? && g.dealTicket.Some? {
      chosen, usedNow := TakeFillCandidate(Get(lookups.deal, g.dealTicket.value), used, g.openedAt);
    }
    if chosen.None? && g.attemptId.Some? {
      chosen, usedNow := TakeFillCandidate(Get(lookups.attempt, g.attemptId.value), used, g.openedAt);
    }
    if chosen.None? && Instrument(g).Some? {
      chosen, usedNow := TakeFillCandidate(Get(lookups.instrument, Instrument(g).value), used, g.openedAt);
    }
  }

  /** Some text or instrument that both carry. */
  predicate Linked(g: Aggregate, c: Candidate) {
    || (g.positionId.Some? && OrderOf(c) == g.positionId)
    || (g.dealTicket.Some? && DealOf(c) == g.dealTicket)
    || (g.attemptId.Some? && AttemptOf(c) == g.attemptId)
    || (Instrument(g).Some? && InstrumentOf(c) == Instrument(g))
  }

  lemma TryIsOptimal<K>(fills: seq<Candidate>, key: Candidate -> Option<K>, k: Option<K>, used: set<Token>,
      target: Option<int>)
    ensures var r := Try(fills, key, k, used, target);
            && (r.None? <==> forall c :: c in fills && k.Some? && key(c) == k ==> c.token in used)
            && (r.Some? ==> r.value in fills && key(r.value) == k && k.Some? && r.value.token !in used)
  {
    if k.Some? {
      ListedMembers(fills, key, k.value);
      BestIsOptimal(Listed(fills, key, k.value), used, target);
    }
  }

  /** A position goes without a fill only if every fill linked to it is already taken. */
  lemma MatchFindsALinkedFill(fills: seq<Candidate>, g: Aggregate, used: set<Token>)
    ensures var r := Match(fills, g, used);
            && (r.None? <==> forall c :: c in fills && Linked(g, c) ==> c.token in used)
            && (r.Some? ==> r.value in fills && Linked(g, r.value) && r.value.token !in used)
  {
    TryIsOptimal(fills, OrderOf, g.positionId, used, g.openedAt);
    TryIsOptimal(fills, DealOf, g.dealTicket, used, g.openedAt);
    TryIsOptimal(fills, AttemptOf, g.attemptId, used, g.openedAt);
    TryIsOptimal(fills, InstrumentOf, Instrument(g), used, g.openedAt);
  }

  // ---- The whole pairing ----

  datatype Record = Record(position: Aggregate, fill: Option<Candidate>)

  datatype Pairing = Pairing(records: seq<Record>, skipped: nat, missing: nat, used: set<Token>)

  function Pair(p: Pairing, fills: seq<Candidate>, g: Aggregate): Pairing {
    if !HasExit(g) then p.(skipped := p.skipped + 1)
    else
      var fill := Match(fills, g, p.used);
      Pairing(p.records + [Record(g, fill)], p.skipped, p.missing + (if fill.None? then 1 else 0),
              if fill.Some? then p.used + {fill.value.token} else p.used)
  }

  function PairAll(fills: seq<Candidate>, groups: seq<Aggregate>): Pairing {
    if groups == [] then Pairing([], 0, 0, {})
    else Pair(PairAll(fills, groups[..|groups| - 1]), fills, groups[|groups| - 1])
  }

  /** Fills that carry a used token are exactly those a record holds, and no two records hold the same one. */
  ghost predicate IsInjective(p: Pairing, fills: seq<Candidate>) {
    && (forall i :: 0 <= i < |p.records| && p.records[i].fill.Some? ==>
          p.records[i].fill.value in fills && p.records[i].fill.value.token in p.used
            && Linked(p.records[i].position, p.records[i].fill.value))
    && (forall i, j :: 0 <= i < j < |p.records| && p.records[i].fill.Some? && p.records[j].fill.Some? ==>
          p.records[i].fill.value.token != p.records[j].fill.value.token)
    && (forall t :: t in p.used ==>
          exists i :: 0 <= i < |p.records| && p.records[i].fill.Some? && p.records[i].fill.value.token == t)
  }

  lemma PairIsInjective(p: Pairing, fills: seq<Candidate>, g: Aggregate)
    requires IsInjective(p, fills)
    ensures IsInjective(Pair(p, fills, g), fills)
  {
    MatchFindsALinkedFill(fills, g, p.used);
    if HasExit(g) {
      var q, n := Pair(p, fills, g), |p.records|;
      forall t | t in q.used
        ensures exists i :: 0 <= i < |q.records| && q.records[i].fill.Some? && q.records[i].fill.value.token == t
      {
        if t in p.used {
          var i :| 0 <= i < n && p.records[i].fill.Some? && p.records[i].fill.value.token == t;
          assert q.records[i] == p.records[i];
        } else {
          assert q.records[n].fill.value.token == t;
        }
      }
    }
  }

  /** No fill is paired twice. */
  lemma {:induction false} NoFillIsUsedTwice(fills: seq<Candidate>, groups: seq<Aggregate>)
    ensures IsInjective(PairAll(fills, groups), fills)
  {
    if groups != [] {
      NoFillIsUsedTwice(fills, groups[..|groups| - 1]);
      PairIsInjective(PairAll(fills, groups[..|groups| - 1]), fills, groups[|groups| - 1]);
    }
  }

  /** A closed position without a fill leaves no unused fill that it is linked to. */
  ghost predicate IsMaximal(p: Pairing, fills: seq<Candidate>) {
    forall i, c ::
      0 <= i < |p.records| && p.records[i].fill.None? && c in fills && Linked(p.records[i].position, c) ==>
        c.token in p.used
  }

  lemma {:induction false} PairingIsMaximal(fills: seq<Candidate>, groups: seq<Aggregate>)
    ensures IsMaximal(PairAll(fills, groups), fills)
  {
    if groups != [] {
      var g, p := groups[|groups| - 1], PairAll(fills, groups[..|groups| - 1]);
      PairingIsMaximal(fills, groups[..|groups| - 1]);
      PairIsMaximal(p, fills, g);
    }
  }

  lemma PairIsMaximal(p: Pairing, fills: seq<Candidate>, g: Aggregate)
    requires IsMaximal(p, fills)
    ensures IsMaximal(Pair(p, fills, g), fills)
  {
    MatchFindsALinkedFill(fills, g, p.used);
  }

  // ---- Counts ----

  function CountUnused(fills: seq<Candidate>, used: set<Token>): nat {
    if fills == [] then 0
    else CountUnused(fills[..|fills| - 1], used) + if fills[|fills| - 1].token in used then 0 else 1
  }

  lemma {:induction false} TakingAFillUsesOne(fills: seq<Candidate>, used: set<Token>, k: nat)
    requires DistinctTokens(fills) && k < |fills| && fills[k].token !in used
    ensures CountUnused(fills, used) == CountUnused(fills, used + {fills[k].token}) + 1
  {
    var n := |fills| - 1;
    if k < n {
      TakingAFillUsesOne(fills[..n], used, k);
    } else {
      TakingAnotherUsesNone(fills[..n], used, fills[k].token);
    }
  }

  lemma {:induction false} TakingAnotherUsesNone(fills: seq<Candidate>, used: set<Token>, t: Token)
    requires forall i :: 0 <= i < |fills| ==> fills[i].token != t
    ensures CountUnused(fills, used) == CountUnused(fills, used + {t})
  {
    if fills != [] {
      TakingAnotherUsesNone(fills[..|fills| - 1], used, t);
    }
  }

  lemma {:induction false} AllUnusedAtFirst(fills: seq<Candidate>)
    ensures CountUnused(fills, {}) == |fills|
  {
    if fills != [] {
      AllUnusedAtFirst(fills[..|fills| - 1]);
    }
  }

  /** Positions are reported or skipped, and paired records are as many as paired fills. */
  lemma {:induction false} CountsBalance(fills: seq<Candidate>, groups: seq<Aggregate>)
    requires DistinctTokens(fills)
    ensures var p := PairAll(fills, groups);
            && |p.records| + p.skipped == |groups|
            && |p.records| - p.missing == |fills| - CountUnused(fills, p.used)
  {
    if groups == [] {
      AllUnusedAtFirst(fills);
    } else {
      var g, p := groups[|groups| - 1], PairAll(fills, groups[..|groups| - 1]);
      CountsBalance(fills, groups[..|groups| - 1]);
      PairKeepsBalance(p, fills, g);
    }
  }

  lemma PairKeepsBalance(p: Pairing, fills: seq<Candidate>, g: Aggregate)
    requires DistinctTokens(fills) && |p.records| - p.missing == |fills| - CountUnused(fills, p.used)
    ensures var q := Pair(p, fills, g); |q.records| - q.missing == |fills| - CountUnused(fills, q.used)
  {
    MatchFindsALinkedFill(fills, g, p.used);
    var c := Match(fills, g, p.used);
    if HasExit(g) && c.Some? {
      var k :| 0 <= k < |fills| && fills[k] == c.value;
      TakingAFillUsesOne(fills, p.used, k);
    }
  }

  // ---- The loops ----

  function InOrder(gs: Groups, n: nat): seq<Aggregate>
    requires n <= |gs.order| && forall k :: k in gs.order ==> k in gs.byKey
  {
    seq(n, i requires 0 <= i < n => gs.byKey[gs.order[i]])
  }

  function AggregatesOf(events: seq<PositionEvent>): seq<Aggregate> {
    GroupsShowTheirExits(events);
    InOrder(GroupsOf(events), |GroupsOf(events).order|)
  }

  method AggregatePositionEvents(events: seq<PositionEvent>) returns (groups: seq<Aggregate>)
    ensures groups == AggregatesOf(events)
  {
    var gs := Groups([], map[]);
    for n := 0 to |events|
      invariant gs == GroupsOf(events[..n])
    {
      assert events[..n + 1][..n] == events[..n];
      gs := Collect(gs, PositionKey(events[n], n), events[n]);
    }
    assert events[..|events|] == events;
    GroupsShowTheirExits(events);
    groups := InOrder(gs, |gs.order|);
  }

  method PairGroups(groups: seq<Aggregate>, lookups: Lookups, ghost fills: seq<Candidate>) returns (p: Pairing)
    requires Indexed(lookups, fills)
    ensures p == PairAll(fills, groups)
  {
    p := Pairing([], 0, 0, {});
    for n := 0 to |groups|
      invariant p == PairAll(fills, groups[..n])
    {
      assert groups[..n + 1][..n] == groups[..n];
      var g := groups[n];
      if !HasExit(g) {
        p := p.(skipped := p.skipped + 1);
      } else {
        var fill, used := MatchFillEvent(g, lookups, fills, p.used);
        p := Pairing(p.records + [Record(g, fill)], p.skipped, p.missing + (if fill.None? then 1 else 0), used);
      }
    }
    assert groups[..|groups|] == groups;
  }

  method CountUnmatched(fills: seq<Candidate>, used: set<Token>) returns (count: nat)
    ensures count == CountUnused(fills, used)
  {
    count := 0;
    for n := 0 to |fills|
      invariant count == CountUnused(fills[..n], used)
    {
      assert fills[..n + 1][..n] == fills[..n];
      if fills[n].token !in used {
        count := count + 1;
      }
    }
    assert fills[..|fills|] == fills;
  }

  function FillsOf(executions: seq<ExecutionEvent>): seq<Candidate> {
    BridgeOf(executions, Lookups(map[], map[], map[], map[])).fills
  }

  /** The counts of the report fit together, and its records are an injective, maximal pairing. */
  method BridgeRuntimeRecords(positions: seq<PositionEvent>, executions: seq<ExecutionEvent>)
    returns (records: seq<Record>, skipped: nat, missing: nat, unmatched: nat, rejected: nat, total: nat)
    ensures var fills, p := FillsOf(executions), PairAll(FillsOf(executions), AggregatesOf(positions));
            && records == p.records && skipped == p.skipped && missing == p.missing
            && unmatched == CountUnused(fills, p.used)
            && IsInjective(p, fills) && IsMaximal(p, fills)
            && |records| - missing == |fills| - unmatched
            && |fills| + rejected <= total
    ensures |records| + skipped == |AggregatesOf(positions)|
    ensures rejected == BridgeOf(executions, Lookups(map[], map[], map[], map[])).rejected
    ensures total == |AttemptsOf(executions).order|
  {
    var bridge := BuildExecutionBridge(executions);
    var groups := AggregatePositionEvents(positions);
    var p := PairGroups(groups, bridge.lookups, bridge.fills);
    ghost var fills := bridge.fills;
    unmatched := CountUnmatched(bridge.fills, p.used);
    records, skipped, missing, rejected, total := p.records, p.skipped, p.missing, bridge.rejected, bridge.total;
    var a := AttemptsOf(executions);
    FilledPlusRejectedIsAtMostTotal(a, |a.order|);
    FillsHaveDistinctTokens(executions, a, |a.order|);
    CountsBalance(fills, groups);
    NoFillIsUsedTwice(fills, groups);
    PairingIsMaximal(fills, groups);
  }
}
