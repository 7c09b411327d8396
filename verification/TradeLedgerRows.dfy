/** Every column of a trade row, read off the events of its ledger. */
module TradeLedgerRows {
  import opened Prelude
  import opened Sorting
  import opened TradeLedger
  import opened Present
  import opened TradeLedgerTheorems
  import opened TradeComponents

  // ---- The columns of an event ----

  function Named(o: Option<string>): Option<string> { if o == Some("") then None else o }

  function AttemptOf(e: Event): Option<string> { if e.Execution? then Named(e.x.attemptId) else None }
  function OrderOf(e: Event): Option<string> { if e.Execution? then Named(e.x.orderTicket) else None }
  function DealOf(e: Event): Option<string> { if e.Execution? then Named(e.x.dealTicket) else None }

  /** The broker's id of a position; the order ticket of a fill serves as one. */
  function BrokerIdOf(e: Event): Option<string> {
    Named(if e.Execution? then e.x.orderTicket else e.p.brokerPositionId)
  }

  /** The price of a fill: the executed one, else the requested one. */
  function FillOf(e: Event): Option<real> {
    if e.Position? then None else if e.x.executedPrice != None then e.x.executedPrice else e.x.price
  }

  function EntryOf(e: Event): Option<real> { if e.Position? then e.p.entryPrice else None }
  function FillTimeOf(e: Event): Option<int> { if e.Execution? then e.x.polledAt else None }
  function FillIdOf(e: Event): Option<nat> { if e.Execution? then Some(e.x.executionId) else None }

  function TimeOf(e: Event): Option<int> {
    if e.Execution? then e.x.polledAt
    else if e.p.closedAt != None then e.p.closedAt
    else if e.p.openedAt != None then e.p.openedAt
    else e.p.polledAt
  }

  predicate SaysClosed(s: Status) {
    s in {Closed, Exited, Liquidated}
  }

  predicate ShowsAnEnd(e: Event) {
    e.Position?
    && !(e.p.closedAt == None && e.p.exitPrice == None && e.p.realizedPnl == None && !SaysClosed(e.p.status))
  }

  function OpenIdOf(e: Event): Option<nat> {
    if e.Position? && !ShowsAnEnd(e) then Some(e.p.positionEventId) else None
  }

  function CloseIdOf(e: Event): Option<nat> { if ShowsAnEnd(e) then Some(e.p.positionEventId) else None }

  /** The time of a closing event, which may itself be missing. */
  function CloseTimeOf(e: Event): Option<Option<int>> { if ShowsAnEnd(e) then Some(TimeOf(e)) else None }

  function StatusOf(e: Event): Option<Status> {
    if e.Position? && e.p.status != NoStatus then Some(e.p.status) else None
  }

  // ---- The columns of a row ----

  /** Prices: positions override, and the first fill stands in for a missing entry price. */
  ghost predicate TellsPrices(t: Trade) {
    && t.fillPrice == Last(t.ledger, FillOf)
    && t.entryPrice == (if Last(t.ledger, EntryOf) != None then Last(t.ledger, EntryOf) else First(t.ledger, FillOf))
  }

  /** Tickets: the last one that is neither missing nor empty. */
  ghost predicate TellsTickets(t: Trade) {
    && t.attemptId == Last(t.ledger, AttemptOf)
    && t.orderTicket == Last(t.ledger, OrderOf)
    && t.dealTicket == Last(t.ledger, DealOf)
    && t.brokerPositionId == Last(t.ledger, BrokerIdOf)
  }

  /** Event ids: the last fill, the first event of an open position and the last closing one. */
  ghost predicate TellsIds(t: Trade) {
    && t.fillExecutionId == Last(t.ledger, FillIdOf)
    && t.openEventId == First(t.ledger, OpenIdOf)
    && t.closeEventId == Last(t.ledger, CloseIdOf)
  }

  /** Times and status: the last of each, the closing time that of the last closing event. */
  ghost predicate TellsTimes(t: Trade) {
    && t.filledAt == Last(t.ledger, FillTimeOf)
    && t.lastEventAt == Last(t.ledger, TimeOf)
    && t.closedAt == (if Last(t.ledger, CloseTimeOf) == None then None else Last(t.ledger, CloseTimeOf).value)
    && t.positionStatus == (if Last(t.ledger, StatusOf) == None then NoStatus else Last(t.ledger, StatusOf).value)
  }

  // ---- The opening time ----

  function OpeningOf(e: Event): Option<int> {
    if e.Execution? then None else if e.p.openedAt != None then e.p.openedAt else TimeOf(e)
  }

  /** Whether the opening time so far is only that of a fill: no open position was seen, and a fill has that time. */
  predicate StandsIn(ledger: seq<Event>, at: int) {
    First(ledger, OpenIdOf) == None && Last(ledger, FillTimeOf) == Some(at)
  }

  /** The opening time after one more event, from the time so far and the ledger so far. */
  function OpeningAfter(ledger: seq<Event>, current: Option<int>, e: Event): Option<int> {
    if current == None then if e.Execution? then e.x.polledAt else OpeningOf(e)
    else if OpeningOf(e) == None then current
    else if StandsIn(ledger, current.value) then OpeningOf(e)
    else if OpeningOf(e).value < current.value then OpeningOf(e)
    else current
  }

  function Opening(ledger: seq<Event>): Option<int> {
    if ledger == [] then None
    else OpeningAfter(ledger[..|ledger| - 1], Opening(ledger[..|ledger| - 1]), ledger[|ledger| - 1])
  }

  ghost predicate Tells(t: Trade) {
    TellsPrices(t) && TellsTickets(t) && TellsIds(t) && TellsTimes(t) && t.openedAt == Opening(t.ledger)
  }

  lemma MergeTellsPrices(t: Trade, e: Event)
    requires TellsPrices(t)
    ensures TellsPrices(Merge(t, e))
  {
    LastAppend(t.ledger, e, FillOf);
    LastAppend(t.ledger, e, EntryOf);
    FirstAppend(t.ledger, e, FillOf);
    PricedIffFilled(t.ledger);
  }

  lemma PricedIffFilled(ledger: seq<Event>)
    ensures Last(ledger, FillOf) == None <==> First(ledger, FillOf) == None
  {
    LastIsTheLastPresent(ledger, FillOf);
    FirstIsTheFirstPresent(ledger, FillOf);
  }

  lemma TicketAppend(ledger: seq<Event>, e: Event, field: Event -> Option<string>, current: Option<string>,
                     given: Option<string>)
    requires current == Last(ledger, field) && field(e) == Named(given)
    ensures OrText(given, current) == Last(ledger + [e], field)
    ensures given == None ==> current == Last(ledger + [e], field)
  {
    LastAppend(ledger, e, field);
  }

  lemma MergeTellsTickets(t: Trade, e: Event)
    requires TellsTickets(t)
    ensures TellsTickets(Merge(t, e))
  {
    TicketAppend(t.ledger, e, AttemptOf, t.attemptId, if e.Execution? then e.x.attemptId else None);
    TicketAppend(t.ledger, e, OrderOf, t.orderTicket, if e.Execution? then e.x.orderTicket else None);
    TicketAppend(t.ledger, e, DealOf, t.dealTicket, if e.Execution? then e.x.dealTicket else None);
    TicketAppend(t.ledger, e, BrokerIdOf, t.brokerPositionId,
                 if e.Execution? then e.x.orderTicket else e.p.brokerPositionId);
  }

  lemma MergeTellsIds(t: Trade, e: Event)
    requires TellsIds(t)
    ensures TellsIds(Merge(t, e))
  {
    LastAppend(t.ledger, e, FillIdOf);
    FirstAppend(t.ledger, e, OpenIdOf);
    LastAppend(t.ledger, e, CloseIdOf);
    IdsOfAnEvent(t, e);
  }

  lemma IdsOfAnEvent(t: Trade, e: Event)
    ensures var m := Merge(t, e);
            && m.ledger == t.ledger + [e]
            && m.fillExecutionId == Or(FillIdOf(e), t.fillExecutionId)
            && m.openEventId == Or(t.openEventId, OpenIdOf(e))
            && m.closeEventId == Or(CloseIdOf(e), t.closeEventId)
  {
  }

  lemma MergeTellsTimes(t: Trade, e: Event)
    requires TellsTimes(t)
    ensures TellsTimes(Merge(t, e))
  {
    LastAppend(t.ledger, e, FillTimeOf);
    LastAppend(t.ledger, e, TimeOf);
    LastAppend(t.ledger, e, CloseTimeOf);
    LastAppend(t.ledger, e, StatusOf);
    TimesOfAnEvent(t, e);
  }

  lemma TimesOfAnEvent(t: Trade, e: Event)
    ensures var m := Merge(t, e);
            && m.ledger == t.ledger + [e]
            && m.filledAt == Or(FillTimeOf(e), t.filledAt)
            && m.lastEventAt == Or(TimeOf(e), t.lastEventAt)
            && m.closedAt == (if CloseTimeOf(e) == None then t.closedAt else CloseTimeOf(e).value)
            && m.positionStatus == (if StatusOf(e) == None then t.positionStatus else StatusOf(e).value)
  {
  }

  lemma FillKeepsTheOpening(t: Trade, x: ExecutionRow)
    ensures MergeExecution(t, x).openedAt == OpeningAfter(t.ledger, t.openedAt, Execution(x))
  {
  }

  lemma PositionMovesTheOpening(t: Trade, p: PositionRow)
    requires t.openEventId == First(t.ledger, OpenIdOf) && t.filledAt == Last(t.ledger, FillTimeOf)
    ensures OpenedAfter(t, p) == OpeningAfter(t.ledger, t.openedAt, Position(p))
  {
    assert Or(p.openedAt, EventAt(Position(p))) == OpeningOf(Position(p));
  }

  lemma MergeTellsTheOpening(t: Trade, e: Event)
    requires t.openEventId == First(t.ledger, OpenIdOf) && t.filledAt == Last(t.ledger, FillTimeOf)
    requires t.openedAt == Opening(t.ledger)
    ensures Merge(t, e).openedAt == Opening(Merge(t, e).ledger)
  {
    assert (t.ledger + [e])[..|t.ledger|] == t.ledger;
    match e
    case Execution(x) => FillKeepsTheOpening(t, x);
    case Position(p) => PositionMovesTheOpening(t, p);
  }

  lemma MergeTells(t: Trade, e: Event)
    requires Tells(t)
    ensures Tells(Merge(t, e))
  {
    MergeTellsPrices(t, e);
    MergeTellsTickets(t, e);
    MergeTellsIds(t, e);
    MergeTellsTimes(t, e);
    MergeTellsTheOpening(t, e);
  }

  /** Every column of every trade is what the events of its ledger say. */
  lemma {:induction false} RowsTellTheirLedgers(events: seq<Event>)
    ensures forall k :: k in Build(events).trades ==> Tells(Build(events).trades[k])
  {
    if events != [] {
      var n := |events| - 1;
      RowsTellTheirLedgers(events[..n]);
      var s, e := Build(events[..n]), events[n];
      NewTradesTell(KeyFor(s, e));
      MergeTells(Touched(s, e), e);
    }
  }

  lemma NewTradesTell(key: string)
    ensures Tells(NewTrade(key))
  {
  }

  // ---- The opening time of a built trade ----

  /** The fills of a ledger, then its position events. */
  ghost predicate FillsComeFirst(ledger: seq<Event>, fills: nat) {
    && fills <= |ledger|
    && (forall i :: 0 <= i < fills ==> ledger[i].Execution?)
    && (forall i :: fills <= i < |ledger| ==> ledger[i].Position?)
  }

  lemma {:induction false} MembersKeepFillsFirst(events: seq<Event>, fills: nat, landed: seq<string>, key: string)
    requires |landed| == |events| && FillsComeFirst(events, fills)
    ensures exists k: nat :: FillsComeFirst(Members(events, landed, key), k)
  {
    var members := Members(events, landed, key);
    if events == [] {
      assert FillsComeFirst(members, 0);
    } else {
      var n := |events| - 1;
      var before := Members(events[..n], landed[..n], key);
      MembersKeepFillsFirst(events[..n], if fills <= n then fills else n, landed[..n], key);
      var k: nat :| FillsComeFirst(before, k);
      if fills <= n {
        assert FillsComeFirst(members, k);
      } else {
        MembersAreEvents(events, landed, key);
        forall i | 0 <= i < |members| ensures members[i].Execution? {
          assert members[i] in members;
        }
        assert FillsComeFirst(members, |members|);
      }
    }
  }

  /** The builder reads all fills before any position event, so every ledger does. */
  lemma LedgersTakeFillsFirst(executions: seq<ExecutionRow>, positions: seq<PositionRow>, key: string)
    requires key in Build(EventsOf(executions, positions)).trades
    ensures exists k: nat :: FillsComeFirst(Build(EventsOf(executions, positions)).trades[key].ledger, k)
  {
    var events := EventsOf(executions, positions);
    LedgersPartitionTheEvents(events);
    MembersKeepFillsFirst(events, |executions|, Build(events).landed, key);
  }

  lemma {:induction false} FillsOpenAtTheFirst(fills: seq<Event>)
    requires forall i :: 0 <= i < |fills| ==> fills[i].Execution?
    ensures Opening(fills) == First(fills, FillTimeOf) && First(fills, OpenIdOf) == None
  {
    if fills != [] {
      FillsOpenAtTheFirst(fills[..|fills| - 1]);
    }
  }

  /** `at` is the earliest of `floor`, when there is one, and of the opening times of the events. */
  ghost predicate IsEarliest(at: int, floor: Option<int>, events: seq<Event>) {
    && (floor == Some(at) || exists i :: 0 <= i < |events| && OpeningOf(events[i]) == Some(at))
    && (floor == None || at <= floor.value)
    && (forall i :: 0 <= i < |events| && OpeningOf(events[i]) != None ==> at <= OpeningOf(events[i]).value)
  }

  /** The time of a single fill gives way to the position events; of two different fill times the first counts. */
  lemma {:induction false} OpeningIsTheEarliest(ledger: seq<Event>, fills: nat)
    requires FillsComeFirst(ledger, fills) && fills < |ledger|
    requires !ShowsAnEnd(ledger[fills]) && OpeningOf(ledger[fills]) != None
    ensures First(ledger, OpenIdOf) != None
    ensures var first, last := First(ledger[..fills], FillTimeOf), Last(ledger[..fills], FillTimeOf);
            Opening(ledger) != None
            && IsEarliest(Opening(ledger).value, if first == last then None else first, ledger[fills..])
  {
    var n := |ledger| - 1;
    if n == fills {
      FirstPositionOpens(ledger, fills);
    } else {
      OpeningIsTheEarliest(ledger[..n], fills);
      assert ledger[..n][..fills] == ledger[..fills];
      var first, last := First(ledger[..fills], FillTimeOf), Last(ledger[..fills], FillTimeOf);
      EarliestGrows(Opening(ledger[..n]), if first == last then None else first, ledger[..n], ledger[..n][fills..],
                    ledger[n]);
      assert ledger[fills..] == ledger[..n][fills..] + [ledger[n]];
    }
  }

  lemma FirstPositionOpens(ledger: seq<Event>, fills: nat)
    requires FillsComeFirst(ledger, fills) && |ledger| == fills + 1
    requires !ShowsAnEnd(ledger[fills]) && OpeningOf(ledger[fills]) != None
    ensures First(ledger, OpenIdOf) != None && Opening(ledger) != None
    ensures var first, last := First(ledger[..fills], FillTimeOf), Last(ledger[..fills], FillTimeOf);
            IsEarliest(Opening(ledger).value, if first == last then None else first, ledger[fills..])
  {
    FillsOpenAtTheFirst(ledger[..fills]);
    FilledIffTimed(ledger[..fills]);
    assert ledger[fills..] == [ledger[fills]];
  }

  lemma FilledIffTimed(ledger: seq<Event>)
    ensures Last(ledger, FillTimeOf) == None <==> First(ledger, FillTimeOf) == None
  {
    LastIsTheLastPresent(ledger, FillTimeOf);
    FirstIsTheFirstPresent(ledger, FillTimeOf);
  }

  lemma EarliestGrows(current: Option<int>, floor: Option<int>, ledger: seq<Event>, events: seq<Event>, e: Event)
    requires current != None && IsEarliest(current.value, floor, events)
    requires e.Position? && First(ledger, OpenIdOf) != None
    ensures OpeningAfter(ledger, current, e) != None
    ensures IsEarliest(OpeningAfter(ledger, current, e).value, floor, events + [e])
  {
    var longer := events + [e];
    assert longer[|events|] == e;
    if exists i :: 0 <= i < |events| && OpeningOf(events[i]) == current {
      var i :| 0 <= i < |events| && OpeningOf(events[i]) == current;
      assert longer[i] == events[i];
    }
  }

  // ---- Names and order ----

  lemma TruthyIsItself(o: Option<string>, name: string)
    ensures name in Truthy(o) <==> name != "" && o == Some(name)
  {
  }

  /** What a fill is known by: its own tickets that are neither missing nor empty. */
  lemma FillAliasesAreItsTickets(x: ExecutionRow, name: string)
    ensures name in Aliases(Execution(x)) <==>
              name != "" && (x.orderTicket == Some(name) || x.dealTicket == Some(name) || x.attemptId == Some(name))
  {
    TruthyIsItself(x.orderTicket, name);
    TruthyIsItself(x.dealTicket, name);
    TruthyIsItself(x.attemptId, name);
  }

  lemma PositionAliasesAreItsTickets(p: PositionRow, name: string)
    ensures name in Aliases(Position(p)) <==>
              && name != ""
              && (p.brokerPositionId == Some(name) || p.payloadOrderTicket == Some(name)
                  || p.payloadOrder == Some(name) || p.payloadDeal == Some(name))
  {
    TruthyIsItself(p.brokerPositionId, name);
    TruthyIsItself(p.payloadOrderTicket, name);
    TruthyIsItself(p.payloadOrder, name);
    TruthyIsItself(p.payloadDeal, name);
  }

  /** The strongest name comes first. */
  lemma TheStrongestAliasIsFirst(e: Event)
    requires Aliases(e) != []
    ensures e.Execution? ==>
              OwnKey(e) == if Named(e.x.orderTicket) != None then e.x.orderTicket.value
                           else if Named(e.x.dealTicket) != None then e.x.dealTicket.value
                           else e.x.attemptId.value
    ensures e.Position? ==>
              OwnKey(e) == if Named(e.p.brokerPositionId) != None then e.p.brokerPositionId.value
                           else if Named(e.p.payloadOrderTicket) != None then e.p.payloadOrderTicket.value
                           else if Named(e.p.payloadOrder) != None then e.p.payloadOrder.value
                           else e.p.payloadDeal.value
  {
  }

  /** The first of the names that is known. */
  ghost predicate IsFirstKnown(aliases: map<string, string>, names: seq<string>, i: int) {
    0 <= i < |names| && names[i] in aliases && forall j :: 0 <= j < i ==> names[j] !in aliases
  }

  lemma {:induction false} TheFirstKnownAliasDecides(aliases: map<string, string>, names: seq<string>)
    ensures forall i :: IsFirstKnown(aliases, names, i) ==> FindTradeKey(aliases, names) == Some(aliases[names[i]])
    ensures FindTradeKey(aliases, names) == None <==> forall name :: name in names ==> name !in aliases
  {
    if names != [] {
      TheFirstKnownAliasDecides(aliases, names[1..]);
      assert names == [names[0]] + names[1..];
      forall i | IsFirstKnown(aliases, names, i) ensures FindTradeKey(aliases, names) == Some(aliases[names[i]]) {
        if i > 0 {
          assert names[1..][i - 1] == names[i];
          assert forall j :: 0 <= j < i - 1 ==> names[1..][j] == names[j + 1];
          assert IsFirstKnown(aliases, names[1..], i - 1);
        }
      }
    }
  }

  /** The id a row is ordered by: that of its closing event, else of its opening one, else of its fill. */
  function ShownId(t: Trade): nat {
    if t.closeEventId != None then t.closeEventId.value
    else if t.openEventId != None then t.openEventId.value
    else if t.fillExecutionId != None then t.fillExecutionId.value
    else 0
  }

  ghost predicate EndsNoEarlier(a: Trade, b: Trade) {
    && (b.lastEventAt != None ==> a.lastEventAt != None && a.lastEventAt.value >= b.lastEventAt.value)
    && (a.lastEventAt == b.lastEventAt ==> ShownId(a) >= ShownId(b))
  }

  lemma NewestEndsNoEarlier(a: Trade, b: Trade)
    requires NewestFirst(a, b)
    ensures EndsNoEarlier(a, b)
  {
  }

  /** Reported rows run from the latest last event to the earliest, rows without one last. */
  lemma RowsRunBackwards(events: seq<Event>)
    ensures forall k :: k in Build(events).order ==> k in Build(events).trades
    ensures var rows := Sort(RowsOf(Build(events)), NewestFirst);
            forall i, j :: 0 <= i < j < |rows| ==> EndsNoEarlier(rows[i], rows[j])
  {
    ReportedRows(events);
    BackwardsWhenSorted(Sort(RowsOf(Build(events)), NewestFirst));
  }

  lemma BackwardsWhenSorted(rows: seq<Trade>)
    requires SortedBy(rows, NewestFirst)
    ensures forall i, j :: 0 <= i < j < |rows| ==> EndsNoEarlier(rows[i], rows[j])
  {
    forall i, j | 0 <= i < j < |rows| ensures EndsNoEarlier(rows[i], rows[j]) {
      NewestEndsNoEarlier(rows[i], rows[j]);
    }
  }

  ghost predicate TimesRunForward(a: Event, b: Event) {
    && (TimeOf(a) != None ==> TimeOf(b) != None && TimeOf(a).value <= TimeOf(b).value)
    && (TimeOf(a) == TimeOf(b) && b.Execution? ==> a.Execution? && a.x.executionId <= b.x.executionId)
    && (TimeOf(a) == TimeOf(b) && a.Position? ==> b.Position? && a.p.positionEventId <= b.p.positionEventId)
  }

  lemma LedgerOrderFollowsTime(a: Event, b: Event)
    requires LedgerOrder(a, b)
    ensures TimesRunForward(a, b)
  {
    assert SortTime(a) == TimeOf(a) && SortTime(b) == TimeOf(b);
  }

  /** Within a row the events run forward in time, and at one time fills come before position events, each by id. */
  lemma LedgersRunForward(ledger: seq<Event>)
    ensures var sorted := Sort(ledger, LedgerOrder);
            forall i, j :: 0 <= i < j < |sorted| ==> TimesRunForward(sorted[i], sorted[j])
  {
    LedgerOrderIsTotal();
    SortSorts(ledger, LedgerOrder);
    var sorted := Sort(ledger, LedgerOrder);
    forall i, j | 0 <= i < j < |sorted| ensures TimesRunForward(sorted[i], sorted[j]) {
      LedgerOrderFollowsTime(sorted[i], sorted[j]);
    }
  }

  lemma SortedKeepsTheColumns(t: Trade)
    ensures var row := Sorted(t);
            && row == t.(ledger := row.ledger, lifecycleClosed := row.lifecycleClosed)
            && multiset(row.ledger) == multiset(t.ledger)
            && (row.lifecycleClosed <==> t.closedAt != None || SaysClosed(t.positionStatus))
  {
    SortIsPermutation(t.ledger, LedgerOrder);
  }

  /** A reported row has the columns of its trade, and is closed by a closing time or by its last status. */
  lemma ReportedRowsTell(events: seq<Event>, key: string, t: Trade, row: Trade)
    requires key in Build(events).trades && t == Build(events).trades[key] && row == Sorted(t)
    ensures Tells(t) && row == t.(ledger := row.ledger, lifecycleClosed := row.lifecycleClosed)
    ensures multiset(row.ledger) == multiset(t.ledger)
    ensures row.lifecycleClosed <==> t.closedAt != None || SaysClosed(t.positionStatus)
  {
    RowsTellTheirLedgers(events);
    SortedKeepsTheColumns(t);
  }
}
