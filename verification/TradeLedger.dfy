/** Reconstruction of trades from execution and position rows through a growing alias map. */
module TradeLedger {
  import opened Prelude
  import opened Sorting

  datatype ExecutionRow = ExecutionRow(
    executionId: nat, orderTicket: Option<string>, dealTicket: Option<string>, attemptId: Option<string>,
    polledAt: Option<int>, volume: Option<real>, executedPrice: Option<real>, price: Option<real>)

  datatype Status = NoStatus | Closed | Exited | Liquidated | Other(text: string)

  datatype PositionRow = PositionRow(
    positionEventId: nat, brokerPositionId: Option<string>, payloadOrderTicket: Option<string>,
    payloadOrder: Option<string>, payloadDeal: Option<string>,
    polledAt: Option<int>, openedAt: Option<int>, closedAt: Option<int>, status: Status, volume: Option<real>,
    entryPrice: Option<real>, exitPrice: Option<real>, realizedPnl: Option<real>, commission: Option<real>,
    swap: Option<real>)

  datatype Event = Execution(x: ExecutionRow) | Position(p: PositionRow)

  /** A fallback key of an event without aliases, kept apart by the id it is made from. */
  function FallbackKey(e: Event): string {
    match e
    case Execution(x) => "execution:" + Decimal(x.executionId)
    case Position(p) => "position:" + Decimal(p.positionEventId)
  }

  /** Empty and missing values are no alias. */
  function Truthy(o: Option<string>): seq<string> {
    if o.Some? && o.value != "" then [o.value] else []
  }

  function Aliases(e: Event): seq<string> {
    match e
    case Execution(x) => Truthy(x.orderTicket) + Truthy(x.dealTicket) + Truthy(x.attemptId)
    case Position(p) =>
      Truthy(p.brokerPositionId) + Truthy(p.payloadOrderTicket) + Truthy(p.payloadOrder) + Truthy(p.payloadDeal)
  }

  /** The first alias, or the fallback of an event that has none. */
  function OwnKey(e: Event): string {
    if Aliases(e) == [] then FallbackKey(e) else Aliases(e)[0]
  }

  datatype Trade = Trade(
    key: string, attemptId: Option<string>, brokerPositionId: Option<string>,
    orderTicket: Option<string>, dealTicket: Option<string>, volume: Option<real>,
    entryPrice: Option<real>, exitPrice: Option<real>, fillPrice: Option<real>,
    filledAt: Option<int>, openedAt: Option<int>, closedAt: Option<int>, lastEventAt: Option<int>,
    fillExecutionId: Option<nat>, openEventId: Option<nat>, closeEventId: Option<nat>, positionStatus: Status,
    realizedPnl: Option<real>, commission: Option<real>, swap: Option<real>, ledger: seq<Event>,
    lifecycleClosed: bool)

  function NewTrade(key: string): Trade {
    Trade(key, None, None, None, None, None, None, None, None, None, None, None, None, None, None, None,
          NoStatus, None, None, None, [], false)
  }

  function OrText(a: Option<string>, b: Option<string>): Option<string> {
    if Truthy(a) != [] then a else b
  }

  function Accumulate(current: Option<real>, incoming: Option<real>): Option<real> {
    match (current, incoming)
    case (_, None) => current
    case (None, Some(_)) => incoming
    case (Some(a), Some(b)) => Some(a + b)
  }

  function Earliest(a: Option<int>, b: Option<int>): Option<int> {
    if a.None? then b else if b.None? || a.value <= b.value then a else b
  }

  function EventAt(e: Event): Option<int> {
    match e
    case Execution(x) => x.polledAt
    case Position(p) => Or(p.closedAt, Or(p.openedAt, p.polledAt))
  }

  predicate IsClosedStatus(s: Status) {
    s.Closed? || s.Exited? || s.Liquidated?
  }

  predicate IsClosing(p: PositionRow) {
    p.closedAt.Some? || p.exitPrice.Some? || p.realizedPnl.Some? || IsClosedStatus(p.status)
  }

  function MergeExecution(t: Trade, x: ExecutionRow): Trade {
    var fillPrice := Or(x.executedPrice, Or(x.price, t.fillPrice));
    t.(attemptId := OrText(x.attemptId, t.attemptId),
       brokerPositionId := OrText(x.orderTicket, t.brokerPositionId),
       orderTicket := OrText(x.orderTicket, t.orderTicket),
       dealTicket := OrText(x.dealTicket, t.dealTicket),
       volume := Or(x.volume, t.volume),
       fillExecutionId := Some(x.executionId),
       filledAt := Or(x.polledAt, t.filledAt),
       openedAt := Or(t.openedAt, x.polledAt),
       fillPrice := fillPrice,
       entryPrice := Or(t.entryPrice, fillPrice),
       lastEventAt := Or(x.polledAt, t.lastEventAt),
       ledger := t.ledger + [Execution(x)])
  }

  /** A fill time stands in for the opening time until a position event supplies one. */
  function OpenedAfter(t: Trade, p: PositionRow): Option<int> {
    var openedAt := Or(p.openedAt, EventAt(Position(p)));
    if t.openedAt.None? then openedAt
    else if openedAt.None? then t.openedAt
    else if t.openEventId.None? && t.filledAt.Some? && t.openedAt == t.filledAt then openedAt
    else Earliest(t.openedAt, openedAt)
  }

  function MergePosition(t: Trade, p: PositionRow): Trade {
    var at, closing := EventAt(Position(p)), IsClosing(p);
    t.(brokerPositionId := OrText(p.brokerPositionId, t.brokerPositionId),
       volume := Or(p.volume, t.volume),
       entryPrice := Or(p.entryPrice, t.entryPrice),
       positionStatus := if p.status.NoStatus? then t.positionStatus else p.status,
       lastEventAt := Or(at, t.lastEventAt),
       openedAt := OpenedAfter(t, p),
       openEventId := if t.openEventId.None? && !closing then Some(p.positionEventId) else t.openEventId,
       closeEventId := if closing then Some(p.positionEventId) else t.closeEventId,
       closedAt := if closing then Or(p.closedAt, at) else t.closedAt,
       exitPrice := if closing then Or(p.exitPrice, t.exitPrice) else t.exitPrice,
       realizedPnl := if closing then Or(p.realizedPnl, t.realizedPnl) else t.realizedPnl,
       commission := Accumulate(t.commission, p.commission),
       swap := Accumulate(t.swap, p.swap),
       ledger := t.ledger + [Position(p)])
  }

  function Merge(t: Trade, e: Event): Trade {
    match e
    case Execution(x) => MergeExecution(t, x)
    case Position(p) => MergePosition(t, p)
  }

  // ---- The builder ----

  /** Trades by key, their keys in order of creation, the alias map, and the key each event landed in. */
  datatype State = State(
    trades: map<string, Trade>, order: seq<string>, aliases: map<string, string>, landed: seq<string>)

  const EMPTY := State(map[], [], map[], [])

  function FindTradeKey(aliases: map<string, string>, candidates: seq<string>): Option<string> {
    if candidates == [] then None
    else if candidates[0] in aliases then Some(aliases[candidates[0]])
    else FindTradeKey(aliases, candidates[1..])
  }

  function RegisterAliases(aliases: map<string, string>, key: string, names: seq<string>): map<string, string> {
    if names == [] then aliases
    else RegisterAliases(aliases, key, names[..|names| - 1])[names[|names| - 1] := key]
  }

  function KeyFor(s: State, e: Event): string {
    match FindTradeKey(s.aliases, Aliases(e))
    case Some(key) => key
    case None => OwnKey(e)
  }

  function Step(s: State, e: Event): State {
    var key := KeyFor(s, e);
    var trade := if key in s.trades then s.trades[key] else NewTrade(key);
    State(s.trades[key := Merge(trade, e)],
          if key in s.trades then s.order else s.order + [key],
          RegisterAliases(s.aliases, key, Aliases(e)),
          s.landed + [key])
  }

  function Build(events: seq<Event>): State {
    if events == [] then EMPTY else Step(Build(events[..|events| - 1]), events[|events| - 1])
  }

  predicate IsTradeClosed(t: Trade) {
    t.closedAt.Some? || IsClosedStatus(t.positionStatus)
  }

  predicate NoLaterThan(a: Option<int>, b: Option<int>) {
    a.None? || (b.Some? && a.value <= b.value)
  }

  predicate Before(a: Option<int>, b: Option<int>) {
    NoLaterThan(a, b) && a != b
  }

  function KindAndId(e: Event): (nat, nat) {
    match e
    case Execution(x) => (0, x.executionId)
    case Position(p) => (1, p.positionEventId)
  }

  function SortTime(e: Event): Option<int> {
    match e
    case Execution(x) => x.polledAt
    case Position(p) => Or(EventAt(e), p.polledAt)
  }

  /** Ledger order: by time, then executions before positions, then by id. */
  predicate LedgerOrder(a: Event, b: Event) {
    var (ka, ia), (kb, ib) := KindAndId(a), KindAndId(b);
    || Before(SortTime(a), SortTime(b))
    || (SortTime(a) == SortTime(b) && (ka < kb || (ka == kb && ia <= ib)))
  }

  function LastId(t: Trade): nat {
    match Or(t.closeEventId, Or(t.openEventId, t.fillExecutionId))
    case Some(id) => id
    case None => 0
  }

  /** Report order: the most recent trade first. */
  predicate NewestFirst(a: Trade, b: Trade) {
    || Before(b.lastEventAt, a.lastEventAt)
    || (a.lastEventAt == b.lastEventAt && LastId(a) >= LastId(b))
  }

  /** A finished row: its ledger in order and its lifecycle status derived. */
  function Sorted(t: Trade): Trade {
    t.(ledger := Sort(t.ledger, LedgerOrder), lifecycleClosed := IsTradeClosed(t))
  }

  class LifecycleBuilder {
    var trades: map<string, Trade>
    var order: seq<string>
    var aliases: map<string, string>
    ghost var landed: seq<string>

    ghost function View(): State
      reads this
    {
      State(trades, order, aliases, landed)
    }

    ghost predicate Valid()
      reads this
    {
      forall k :: k in order <==> k in trades
    }

    constructor ()
      ensures Valid() && View() == EMPTY
    {
      trades, order, aliases, landed := map[], [], map[], [];
    }

    method FindKey(candidates: seq<string>) returns (key: Option<string>)
      ensures key == FindTradeKey(aliases, candidates)
    {
      for n := 0 to |candidates|
        invariant FindTradeKey(aliases, candidates[n..]) == FindTradeKey(aliases, candidates)
      {
        if candidates[n] in aliases {
          return Some(aliases[candidates[n]]);
        }
        assert candidates[n..][1..] == candidates[n + 1..];
      }
      return None;
    }

    method Register(key: string, names: seq<string>)
      modifies this`aliases
      ensures aliases == RegisterAliases(old(aliases), key, names)
    {
      for n := 0 to |names|
        invariant aliases == RegisterAliases(old(aliases), key, names[..n])
      {
        assert names[..n + 1][..n] == names[..n];
        aliases := aliases[names[n] := key];
      }
      assert names[..|names|] == names;
    }

    method Add(e: Event)
      requires Valid()
      modifies this
      ensures Valid() && View() == Step(old(View()), e)
    {
      var found := FindKey(Aliases(e));
      var key := if found.Some? then found.value else OwnKey(e);
      var trade := NewTrade(key);
      if key in trades {
        trade := trades[key];
      } else {
        order := order + [key];
      }
      Register(key, Aliases(e));
      trades := trades[key := Merge(trade, e)];
      landed := landed + [key];
    }

    method AddAll(events: seq<Event>)
      requires Valid() && View() == EMPTY
      modifies this
      ensures Valid() && View() == Build(events)
    {
      for n := 0 to |events|
        invariant Valid() && View() == Build(events[..n])
      {
        assert events[..n + 1][..n] == events[..n];
        Add(events[n]);
      }
      assert events[..|events|] == events;
    }

    method Rows() returns (rows: seq<Trade>)
      requires Valid()
      ensures rows == RowsOf(View())
    {
      rows := [];
      for n := 0 to |order|
        invariant |rows| == n && forall i :: 0 <= i < n ==> rows[i] == Sorted(trades[order[i]])
      {
        rows := rows + [Sorted(trades[order[n]])];
      }
    }
  }

  function RowsOf(s: State): seq<Trade>
    requires forall k :: k in s.order ==> k in s.trades
  {
    seq(|s.order|, i requires 0 <= i < |s.order| => Sorted(s.trades[s.order[i]]))
  }

  function EventsOf(executions: seq<ExecutionRow>, positions: seq<PositionRow>): seq<Event> {
    seq(|executions|, i requires 0 <= i < |executions| => Execution(executions[i]))
    + seq(|positions|, i requires 0 <= i < |positions| => Position(positions[i]))
  }

  /** All executions in order of id, then all position events, then both sorts. */
  method BuildTradeLifecycleRows(executions: seq<ExecutionRow>, positions: seq<PositionRow>) returns (rows: seq<Trade>)
    ensures var s := Build(EventsOf(executions, positions));
            && (forall k :: k in s.order ==> k in s.trades)
            && rows == Sort(RowsOf(s), NewestFirst)
  {
    var builder := new LifecycleBuilder();
    builder.AddAll(EventsOf(executions, positions));
    rows := builder.Rows();
    rows := Sort(rows, NewestFirst);
  }
}
