/** The shared-balance portfolio simulator: events interleaved with bars over one account. */
module Portfolio {
  import opened Prelude
  import opened Bars
  import opened Legs

  // ---- Lot selection ----

  datatype Tier = Tier(balance: real, lot: real)

  /** How the volume of a new trade follows the realized balance. */
  datatype LotPlan = Static | Threshold(threshold: real, low: real, high: real) | Tiers(tiers: seq<Tier>)

  predicate ValidPlan(plan: LotPlan) {
    match plan
    case Static => true
    case Threshold(threshold, low, high) => threshold > 0.0 && 0.0 < low <= high
    case Tiers(tiers) =>
      && tiers != [] && tiers[0].balance == 0.0
      && (forall i, j :: 0 <= i < j < |tiers| ==> tiers[i].balance < tiers[j].balance)
  }

  const TIER_SLACK := 0.000000000001

  /** The last tier whose balance has been reached; the first one is the fallback. */
  method SelectTierLot(balance: real, tiers: seq<Tier>) returns (lot: real, tier: nat)
    requires ValidPlan(Tiers(tiers))
    ensures tier < |tiers| && lot == tiers[tier].lot
    ensures tier == TierIndex(balance, tiers)
  {
    lot, tier := tiers[0].lot, 0;
    var i := 0;
    while i < |tiers| && balance + TIER_SLACK >= tiers[i].balance
      invariant 0 <= i <= |tiers|
      invariant tier == if i == 0 then 0 else i - 1
      invariant lot == tiers[tier].lot
      invariant forall k :: 0 <= k < i ==> balance + TIER_SLACK >= tiers[k].balance
    {
      lot, tier := tiers[i].lot, i;
      i := i + 1;
    }
    TierIsUnique(balance, tiers, tier);
  }

  function TierIndex(balance: real, tiers: seq<Tier>): (k: nat)
    requires tiers != []
    ensures k < |tiers|
  {
    if |tiers| == 1 || balance + TIER_SLACK < tiers[1].balance then 0 else 1 + TierIndex(balance, tiers[1..])
  }

  /** The chosen tier is the highest one that the balance has reached. */
  lemma {:induction false} TierIsUnique(balance: real, tiers: seq<Tier>, k: nat)
    requires k < |tiers| && (forall i, j :: 0 <= i < j < |tiers| ==> tiers[i].balance < tiers[j].balance)
    ensures TierIndex(balance, tiers) == k <==>
            && (k > 0 ==> balance + TIER_SLACK >= tiers[k].balance)
            && (k + 1 < |tiers| ==> balance + TIER_SLACK < tiers[k + 1].balance)
  {
    if |tiers| == 1 || balance + TIER_SLACK < tiers[1].balance {
      if k > 1 { assert tiers[1].balance < tiers[k].balance; }
    } else if k == 0 {
    } else {
      TierIsUnique(balance, tiers[1..], k - 1);
    }
  }

  // ---- The account ----

  datatype Variant = Variant(lot: real, positions: seq<Position>)

  /** One signal with its positions at every volume that the lot plan may choose. */
  datatype Group = Group(openedAt: int, variants: seq<Variant>)

  datatype Event =
    | Opened(time: int, position: Position, balance: real)
    | Closed(time: int, position: Position, balance: real)

  datatype Failure =
    | InsufficientMarginAtEntry(time: int, balance: real, requiredMargin: real)
    | StopOut(time: int, adverseEquity: real)

  datatype Book = Book(
    balance: real, peakBalance: real, minimumBalance: real, maximumRealizedDrawdown: real,
    realizedBuy: real, realizedSell: real, totalEntryCost: real, totalExitCost: real,
    active: seq<Position>, closes: map<int, seq<Position>>, selected: seq<Position>,
    ledger: seq<Event>, failure: Option<Failure>)

  function Opening(balance: real): Book {
    Book(balance, balance, balance, 0.0, 0.0, 0.0, 0.0, 0.0, [], map[], [], [], None)
  }

  function MarginOf(p: Position): real { p.margin }
  function IfSide(side: Side, p: Position, x: real): real { if p.id.side == side then x else 0.0 }

  function Find(active: seq<Position>, id: Id): (k: nat)
    ensures k <= |active|
    ensures k < |active| ==> active[k].id == id
    ensures forall i :: 0 <= i < k ==> active[i].id != id
  {
    if active == [] || active[0].id == id then 0 else 1 + Find(active[1..], id)
  }

  function ClosesAt(b: Book, time: int): seq<Position> {
    if time in b.closes then b.closes[time] else []
  }

  function CloseOne(b: Book, time: int, p: Position): Book {
    var k := Find(b.active, p.id);
    if k == |b.active| then b
    else
      var balance := b.balance + p.closeProfit;
      var peak := Max(b.peakBalance, balance);
      b.(balance := balance, peakBalance := peak, minimumBalance := Min(b.minimumBalance, balance),
         maximumRealizedDrawdown := Max(b.maximumRealizedDrawdown, peak - balance),
         realizedBuy := b.realizedBuy + IfSide(Buy, p, p.closeProfit),
         realizedSell := b.realizedSell + IfSide(Sell, p, p.closeProfit),
         active := b.active[..k] + b.active[k + 1..],
         ledger := b.ledger + [Closed(time, p, balance)])
  }

  function CloseList(b: Book, time: int, ps: seq<Position>): Book {
    if ps == [] then b else CloseOne(CloseList(b, time, ps[..|ps| - 1]), time, ps[|ps| - 1])
  }

  function VariantCount(plan: LotPlan): nat {
    match plan
    case Static => 1
    case Threshold(_, _, _) => 2
    case Tiers(tiers) => |tiers|
  }

  function VariantIndex(plan: LotPlan, balance: real): (k: nat)
    requires ValidPlan(plan)
    ensures k < VariantCount(plan)
  {
    match plan
    case Static => 0
    case Threshold(threshold, low, high) => if balance >= threshold || low == high then 1 else 0
    case Tiers(tiers) => TierIndex(balance, tiers)
  }

  /** Each group carries one variant per volume of the plan. */
  ghost predicate Fits(plan: LotPlan, g: Group) {
    |g.variants| == VariantCount(plan)
  }

  ghost predicate AllFit(plan: LotPlan, groups: seq<Group>) {
    ValidPlan(plan) && forall g :: g in groups ==> Fits(plan, g)
  }

  function Candidates(plan: LotPlan, groups: seq<Group>, time: int, balance: real): seq<Position>
    requires AllFit(plan, groups)
  {
    if groups == [] then []
    else
      var n := |groups| - 1;
      var before := Candidates(plan, groups[..n], time, balance);
      assert Fits(plan, groups[n]);
      if groups[n].openedAt == time then before + groups[n].variants[VariantIndex(plan, balance)].positions else before
  }

  function Register(b: Book, ps: seq<Position>): Book {
    if ps == [] then b
    else
      var n := |ps| - 1;
      var c := Register(b, ps[..n]);
      c.(selected := c.selected + [ps[n]], closes := c.closes[ps[n].closedAt := ClosesAt(c, ps[n].closedAt) + [ps[n]]])
  }

  function Activate(b: Book, time: int, ps: seq<Position>): Book {
    if ps == [] then b
    else
      var n := |ps| - 1;
      var c := Activate(b, time, ps[..n]);
      var k := Find(c.active, ps[n].id);
      c.(active := if k == |c.active| then c.active + [ps[n]] else c.active[k := ps[n]],
         ledger := c.ledger + [Opened(time, ps[n], c.balance)])
  }

  /** Entry costs of the admitted positions, in total and by side, and their future exit costs. */
  function Charge(b: Book, cost: real, exitCost: real, buyCost: real, sellCost: real): Book {
    var balance := b.balance - cost;
    b.(balance := balance, minimumBalance := Min(b.minimumBalance, balance),
       maximumRealizedDrawdown := Max(b.maximumRealizedDrawdown, b.peakBalance - balance),
       totalEntryCost := b.totalEntryCost + cost, totalExitCost := b.totalExitCost + exitCost,
       realizedBuy := b.realizedBuy - buyCost, realizedSell := b.realizedSell - sellCost)
  }

  function ChargeFor(b: Book, ps: seq<Position>): Book {
    Charge(b, SumBy(ps, EntryCostOf), SumBy(ps, ExitCostOf), SumBy(ps, EntryCostOn(Buy)), SumBy(ps, EntryCostOn(Sell)))
  }

  function EntryCostOn(side: Side): Position -> real { (p: Position) => IfSide(side, p, p.entryCost) }

  function OpenAll(b: Book, time: int, ps: seq<Position>): Book {
    var required := SumBy(b.active, MarginOf) + SumBy(ps, MarginOf);
    if required > b.balance - SumBy(ps, EntryCostOf) then
      b.(failure := Some(InsufficientMarginAtEntry(time, b.balance, required)))
    else Activate(Register(ChargeFor(b, ps), ps), time, ps)
  }

  /** One event time: everything due closes first, then the signals of that time open together or not at all. */
  function Handle(plan: LotPlan, groups: seq<Group>, b: Book, time: int): Book
    requires AllFit(plan, groups)
  {
    var c := CloseList(b, time, ClosesAt(b, time));
    OpenAll(c, time, Candidates(plan, groups, time, c.balance))
  }

  function HandleAll(plan: LotPlan, groups: seq<Group>, b: Book, times: seq<int>): Book
    requires AllFit(plan, groups)
  {
    if times == [] then b
    else Handle(plan, groups, HandleAll(plan, groups, b, times[..|times| - 1]), times[|times| - 1])
  }

  lemma HandleAllNext(plan: LotPlan, groups: seq<Group>, times: seq<int>, start: real, k: nat)
    requires AllFit(plan, groups) && 0 < k <= |times|
    ensures HandleAll(plan, groups, Opening(start), times[..k])
         == Handle(plan, groups, HandleAll(plan, groups, Opening(start), times[..k - 1]), times[k - 1])
    ensures k == 1 ==> HandleAll(plan, groups, Opening(start), times[..k - 1]) == Opening(start)
  {
    assert times[..k][..k - 1] == times[..k - 1];
  }

  // ---- Event times ----

  function InsertTime(time: int, times: seq<int>): seq<int> {
    if times == [] || times[|times| - 1] < time then times + [time]
    else if times[|times| - 1] == time then times
    else InsertTime(time, times[..|times| - 1]) + [times[|times| - 1]]
  }

  function InsertAll(ps: seq<Position>, times: seq<int>): seq<int> {
    if ps == [] then times else InsertTime(ps[|ps| - 1].closedAt, InsertAll(ps[..|ps| - 1], times))
  }

  function InsertVariants(variants: seq<Variant>, times: seq<int>): seq<int> {
    if variants == [] then times
    else InsertAll(variants[|variants| - 1].positions, InsertVariants(variants[..|variants| - 1], times))
  }

  /** The opening times of all groups and every possible closing time, sorted without repetition. */
  function EventTimes(groups: seq<Group>): seq<int> {
    if groups == [] then []
    else
      var g := groups[|groups| - 1];
      InsertVariants(g.variants, InsertTime(g.openedAt, EventTimes(groups[..|groups| - 1])))
  }

  ghost predicate Ascending(times: seq<int>) {
    forall i, j :: 0 <= i < j < |times| ==> times[i] < times[j]
  }

  ghost predicate Offers(g: Group, p: Position) {
    exists v :: 0 <= v < |g.variants| && p in g.variants[v].positions
  }

  /** Every possible closing time is an event time. */
  ghost predicate Covers(groups: seq<Group>, times: seq<int>) {
    forall g, p :: g in groups && Offers(g, p) ==> p.closedAt in times
  }

  lemma {:induction false} InsertTimeMembers(time: int, times: seq<int>)
    requires Ascending(times)
    ensures var r := InsertTime(time, times); Ascending(r) && forall t :: t in r <==> t == time || t in times
  {
    if !(times == [] || times[|times| - 1] <= time) {
      var n := |times| - 1;
      InsertTimeMembers(time, times[..n]);
      var r := InsertTime(time, times[..n]);
      forall i | 0 <= i < |r| ensures r[i] < times[n] {
        assert r[i] in r;
      }
      assert times == times[..n] + [times[n]];
    }
  }

  lemma {:induction false} InsertAllMembers(ps: seq<Position>, times: seq<int>)
    requires Ascending(times)
    ensures var r := InsertAll(ps, times);
            Ascending(r) && forall t :: t in r <==> t in times || exists p :: p in ps && p.closedAt == t
  {
    if ps != [] {
      var n := |ps| - 1;
      InsertAllMembers(ps[..n], times);
      InsertTimeMembers(ps[n].closedAt, InsertAll(ps[..n], times));
      assert forall p :: p in ps <==> p in ps[..n] || p == ps[n] by {
        assert ps == ps[..n] + [ps[n]];
      }
    }
  }

  lemma {:induction false} InsertVariantsMembers(variants: seq<Variant>, times: seq<int>)
    requires Ascending(times)
    ensures var r := InsertVariants(variants, times);
            && Ascending(r) && (forall t :: t in times ==> t in r)
            && (forall v, p :: 0 <= v < |variants| && p in variants[v].positions ==> p.closedAt in r)
  {
    if variants != [] {
      var n := |variants| - 1;
      InsertVariantsMembers(variants[..n], times);
      InsertAllMembers(variants[n].positions, InsertVariants(variants[..n], times));
      forall v, p | 0 <= v < |variants| && p in variants[v].positions
        ensures p.closedAt in InsertVariants(variants, times)
      {
        assert v < n ==> variants[..n][v] == variants[v];
      }
    }
  }

  lemma GroupTimes(g: Group, times: seq<int>)
    requires Ascending(times)
    ensures var r := InsertVariants(g.variants, InsertTime(g.openedAt, times));
            && Ascending(r) && g.openedAt in r && (forall t :: t in times ==> t in r)
            && (forall p :: Offers(g, p) ==> p.closedAt in r)
  {
    InsertTimeMembers(g.openedAt, times);
    InsertVariantsMembers(g.variants, InsertTime(g.openedAt, times));
  }

  /** The computed event times ascend, include every opening time and every possible closing time. */
  lemma {:induction false} EventTimesAreComplete(groups: seq<Group>)
    ensures Ascending(EventTimes(groups)) && Covers(groups, EventTimes(groups))
    ensures forall g :: g in groups ==> g.openedAt in EventTimes(groups)
  {
    if groups != [] {
      var n := |groups| - 1;
      EventTimesAreComplete(groups[..n]);
      GroupTimes(groups[n], EventTimes(groups[..n]));
      Snoc(groups);
    }
  }

  /** How many event times are not after `limit`. */
  function DueBy(times: seq<int>, limit: int): (k: nat)
    ensures k <= |times|
    ensures forall i :: 0 <= i < k ==> times[i] <= limit
    ensures k < |times| ==> times[k] > limit
  {
    if times == [] || times[0] > limit then 0 else 1 + DueBy(times[1..], limit)
  }

  function Later(a: nat, b: nat): nat {
    if a >= b then a else b
  }

  /** Events handled on arrival at bar `n`: every earlier bar reaches one minute past its time. */
  function Arrived(times: seq<int>, bars: seq<Bar>, n: nat): (k: nat)
    requires n <= |bars|
    ensures k <= |times|
  {
    if n == 0 then 0 else Later(Arrived(times, bars, n - 1), DueBy(times, bars[n - 1].time + ONE_MINUTE))
  }

  /** Events handled when bar `n` is checked for a stop-out. */
  function CheckedAfter(times: seq<int>, bars: seq<Bar>, n: nat): (k: nat)
    requires n < |bars|
    ensures k <= |times|
  {
    Later(Arrived(times, bars, n), DueBy(times, bars[n].time))
  }

  ghost predicate MinutesApart(bars: seq<Bar>) {
    forall i, j :: 0 <= i < j < |bars| ==> bars[i].time + ONE_MINUTE <= bars[j].time
  }

  lemma DueByGrows(times: seq<int>, a: int, b: int)
    requires Ascending(times) && a <= b
    ensures DueBy(times, a) <= DueBy(times, b)
  {
  }

  lemma {:induction false} ArrivedByThen(times: seq<int>, bars: seq<Bar>, n: nat, limit: int)
    requires Ascending(times) && n <= |bars| && forall i :: 0 <= i < n ==> bars[i].time + ONE_MINUTE <= limit
    ensures Arrived(times, bars, n) <= DueBy(times, limit)
  {
    if n > 0 {
      ArrivedByThen(times, bars, n - 1, limit);
      DueByGrows(times, bars[n - 1].time + ONE_MINUTE, limit);
    }
  }

  /** Bars a minute apart are checked after exactly the events that are not after their time. */
  lemma BarsAreCheckedOnTime(times: seq<int>, bars: seq<Bar>, n: nat)
    requires Ascending(times) && MinutesApart(bars) && n < |bars|
    ensures forall i :: 0 <= i < |times| ==> (i < CheckedAfter(times, bars, n) <==> times[i] <= bars[n].time)
  {
    ArrivedByThen(times, bars, n, bars[n].time);
    var k := DueBy(times, bars[n].time);
    assert forall i :: k < i < |times| ==> times[k] < times[i];
  }

  lemma {:induction false} ArrivedGrows(times: seq<int>, bars: seq<Bar>, m: nat, n: nat)
    requires m <= n <= |bars|
    ensures Arrived(times, bars, m) <= Arrived(times, bars, n)
  {
    if m < n {
      ArrivedGrows(times, bars, m, n - 1);
    }
  }

  /** The two event loops of one bar together reach one minute past its time. */
  lemma BarReaches(times: seq<int>, bars: seq<Bar>, m: nat, next: nat)
    requires Ascending(times) && m < |bars| && next == m + 1
    ensures Later(CheckedAfter(times, bars, m), DueBy(times, bars[m].time + ONE_MINUTE)) == Arrived(times, bars, next)
  {
    DueByGrows(times, bars[m].time, bars[m].time + ONE_MINUTE);
  }

  /** A later bar is never checked before the events that an earlier one has seen. */
  lemma ChecksFollow(times: seq<int>, bars: seq<Bar>, m: nat, next: nat, n: nat)
    requires Ascending(times) && next == m + 1 <= n < |bars|
    ensures CheckedAfter(times, bars, m) <= Arrived(times, bars, next) <= CheckedAfter(times, bars, n)
  {
    BarReaches(times, bars, m, next);
    ArrivedGrows(times, bars, next, n);
  }

  lemma LimitPassed(times: seq<int>, limit: int, i: nat)
    requires Ascending(times) && i < |times| && times[i] <= limit
    ensures i < DueBy(times, limit)
  {
  }

  // ---- Marking to market ----

  function FloatingProfit(p: Position, price: real, contractSize: real): real {
    (if p.id.side.Buy? then 1.0 else -1.0) * (price - p.id.entry) * contractSize * p.lot
  }

  function Floating(price: real, contractSize: real): Position -> real {
    (p: Position) => FloatingProfit(p, price, contractSize)
  }

  function Equity(b: Book, price: real, contractSize: real): real {
    b.balance + SumBy(b.active, Floating(price, contractSize))
  }

  /** The equity of the worst of the bar's low, high and close. */
  function AdverseEquity(b: Book, bar: Bar, contractSize: real): real {
    Min(Equity(b, bar.low, contractSize), Min(Equity(b, bar.high, contractSize), Equity(b, bar.close, contractSize)))
  }

  /** Whether the broker would close everything on this bar; without margin the level is infinite. */
  predicate IsStopOut(b: Book, bar: Bar, contractSize: real, stopOutLevel: real) {
    var adverse, margin := AdverseEquity(b, bar, contractSize), SumBy(b.active, MarginOf);
    && b.active != []
    && (adverse <= 0.0 || (stopOutLevel > 0.0 && margin > 0.0 && adverse / margin * 100.0 <= stopOutLevel))
  }

  /** What a stop-out leaves: the broker closes at the stop-out level of the margin in use. */
  function StoppedOut(b: Book, bar: Bar, contractSize: real, stopOutLevel: real): Book {
    var balance := Max(0.0, SumBy(b.active, MarginOf) * stopOutLevel / 100.0);
    b.(failure := Some(StopOut(bar.time, AdverseEquity(b, bar, contractSize))),
       balance := balance, minimumBalance := Min(b.minimumBalance, balance))
  }

  // ---- The simulator ----

  /** The account before the first event and after each of them. */
  function Trace(plan: LotPlan, groups: seq<Group>, b: Book, times: seq<int>): (states: seq<Book>)
    requires AllFit(plan, groups)
    ensures |states| == |times| + 1 && states[0] == b
  {
    if times == [] then [b]
    else
      var n := |times| - 1;
      var before := Trace(plan, groups, b, times[..n]);
      before + [Handle(plan, groups, before[n], times[n])]
  }

  ghost predicate IsStep(plan: LotPlan, groups: seq<Group>, times: seq<int>, states: seq<Book>, k: nat)
    requires AllFit(plan, groups)
  {
    && |states| == |times| + 1 && k < |times|
    && states[k + 1] == Handle(plan, groups, states[k], times[k])
  }

  ghost predicate IsTrace(plan: LotPlan, groups: seq<Group>, b: Book, times: seq<int>, states: seq<Book>)
    requires AllFit(plan, groups)
  {
    && |states| == |times| + 1 && states[0] == b
    && forall k :: 0 <= k < |times| ==> IsStep(plan, groups, times, states, k)
  }

  lemma {:induction false} TraceSteps(plan: LotPlan, groups: seq<Group>, b: Book, times: seq<int>)
    requires AllFit(plan, groups)
    ensures IsTrace(plan, groups, b, times, Trace(plan, groups, b, times))
  {
    if times != [] {
      var n := |times| - 1;
      TraceSteps(plan, groups, b, times[..n]);
      var front := Trace(plan, groups, b, times[..n]);
      LongerTrace(plan, groups, b, times, front, Trace(plan, groups, b, times));
    }
  }

  lemma LongerTrace(plan: LotPlan, groups: seq<Group>, b: Book, times: seq<int>, front: seq<Book>, all: seq<Book>)
    requires AllFit(plan, groups) && times != [] && IsTrace(plan, groups, b, times[..|times| - 1], front)
    requires all == front + [Handle(plan, groups, front[|times| - 1], times[|times| - 1])]
    ensures IsTrace(plan, groups, b, times, all)
  {
    forall k | 0 <= k < |times| ensures IsStep(plan, groups, times, all, k) {
      assert k < |times| - 1 ==> IsStep(plan, groups, times[..|times| - 1], front, k);
    }
  }

  class Simulator {
    const plan: LotPlan
    const groups: seq<Group>
    const times: seq<int>
    const start: real

    /** The account before the first event and after each one, every event handled once and in order. */
    ghost const states: seq<Book>

    var balance: real
    var peakBalance: real
    var minimumBalance: real
    var maximumRealizedDrawdown: real
    var realizedBuy: real
    var realizedSell: real
    var totalEntryCost: real
    var totalExitCost: real
    var active: seq<Position>
    var closes: map<int, seq<Position>>
    var selected: seq<Position>
    var ledger: seq<Event>
    var failure: Option<Failure>
    var eventIndex: nat

    /** What holds of the constants from construction on. */
    ghost predicate SetUp() {
      AllFit(plan, groups) && Ascending(times) && IsTrace(plan, groups, Opening(start), times, states)
    }

    ghost predicate Valid()
      reads this
    {
      SetUp() && times == EventTimes(groups) && eventIndex <= |times|
    }

    /** The account is what handling the events so far makes of it. */
    ghost predicate OnTrack()
      requires SetUp()
      reads this
    {
      eventIndex <= |times| && View() == states[eventIndex]
    }

    /** The account is still open for trading when bar `n` is checked, and the bar stops it out. */
    ghost predicate StopsAt(bars: seq<Bar>, n: nat, contractSize: real, stopOutLevel: real)
      requires SetUp() && n < |bars|
    {
      var b := states[CheckedAfter(times, bars, n)];
      b.failure.None? && IsStopOut(b, bars[n], contractSize, stopOutLevel)
    }

    ghost predicate NoStopBefore(bars: seq<Bar>, n: nat, contractSize: real, stopOutLevel: real)
      requires SetUp() && n <= |bars|
    {
      forall m :: 0 <= m < n ==> !StopsAt(bars, m, contractSize, stopOutLevel)
    }

    /** The whole state left by a stop-out at bar `n`, the first bar that stops the account out. */
    ghost predicate EndsAt(bars: seq<Bar>, n: nat, contractSize: real, stopOutLevel: real)
      requires SetUp()
      reads this
    {
      && n < |bars| && StopsAt(bars, n, contractSize, stopOutLevel)
      && NoStopBefore(bars, n, contractSize, stopOutLevel)
      && eventIndex == CheckedAfter(times, bars, n)
      && View() == StoppedOut(states[eventIndex], bars[n], contractSize, stopOutLevel)
    }

    function View(): Book
      reads this
    {
      Book(balance, peakBalance, minimumBalance, maximumRealizedDrawdown, realizedBuy, realizedSell,
           totalEntryCost, totalExitCost, active, closes, selected, ledger, failure)
    }

    constructor (plan: LotPlan, groups: seq<Group>, start: real)
      requires AllFit(plan, groups)
      ensures Valid() && View() == Opening(start) && eventIndex == 0
      ensures this.plan == plan && this.groups == groups && times == EventTimes(groups) && this.start == start
    {
      this.plan, this.groups, this.times, this.start := plan, groups, EventTimes(groups), start;
      states := Trace(plan, groups, Opening(start), EventTimes(groups));
      balance, peakBalance, minimumBalance, maximumRealizedDrawdown := start, start, start, 0.0;
      realizedBuy, realizedSell, totalEntryCost, totalExitCost := 0.0, 0.0, 0.0, 0.0;
      active, closes, selected, ledger, failure, eventIndex := [], map[], [], [], None, 0;
      EventTimesAreComplete(groups);
      TraceSteps(plan, groups, Opening(start), EventTimes(groups));
    }

    /** The states are those of the specification of a run. */
    lemma {:induction false} StatesAreHandled(k: nat)
      requires SetUp() && k <= |times|
      ensures states[k] == HandleAll(plan, groups, Opening(start), times[..k])
    {
      if k > 0 {
        StatesAreHandled(k - 1);
        HandleAllNext(plan, groups, times, start, k);
        assert IsStep(plan, groups, times, states, k - 1);
      }
    }

    method Close(time: int, p: Position)
      modifies this
      ensures View() == CloseOne(old(View()), time, p) && eventIndex == old(eventIndex)
    {
      var k := Find(active, p.id);
      if k < |active| {
        balance := balance + p.closeProfit;
        realizedBuy := realizedBuy + IfSide(Buy, p, p.closeProfit);
        realizedSell := realizedSell + IfSide(Sell, p, p.closeProfit);
        peakBalance := Max(peakBalance, balance);
        minimumBalance := Min(minimumBalance, balance);
        maximumRealizedDrawdown := Max(maximumRealizedDrawdown, peakBalance - balance);
        active := active[..k] + active[k + 1..];
        ledger := ledger + [Closed(time, p, balance)];
      }
    }

    method ClosePositions(time: int)
      modifies this
      ensures View() == CloseList(old(View()), time, ClosesAt(old(View()), time)) && eventIndex == old(eventIndex)
    {
      var due := ClosesAt(View(), time);
      ghost var before := View();
      for n := 0 to |due|
        invariant View() == CloseList(before, time, due[..n]) && eventIndex == old(eventIndex)
      {
        assert due[..n + 1][..n] == due[..n];
        Close(time, due[n]);
      }
      assert due[..|due|] == due;
    }

    method Admit(cost: real, exitCost: real, buyCost: real, sellCost: real)
      modifies this
      ensures View() == Charge(old(View()), cost, exitCost, buyCost, sellCost) && eventIndex == old(eventIndex)
    {
      balance := balance - cost;
      totalEntryCost := totalEntryCost + cost;
      totalExitCost := totalExitCost + exitCost;
      realizedBuy := realizedBuy - buyCost;
      realizedSell := realizedSell - sellCost;
      minimumBalance := Min(minimumBalance, balance);
      maximumRealizedDrawdown := Max(maximumRealizedDrawdown, peakBalance - balance);
    }

    method Select(candidates: seq<Position>)
      modifies this
      ensures View() == Register(old(View()), candidates) && eventIndex == old(eventIndex)
    {
      ghost var before := View();
      for n := 0 to |candidates|
        invariant View() == Register(before, candidates[..n]) && eventIndex == old(eventIndex)
      {
        var p := candidates[n];
        assert candidates[..n + 1][..n] == candidates[..n];
        selected := selected + [p];
        closes := closes[p.closedAt := ClosesAt(View(), p.closedAt) + [p]];
      }
      assert candidates[..|candidates|] == candidates;
    }

    method Open(time: int, candidates: seq<Position>)
      modifies this
      ensures View() == Activate(old(View()), time, candidates) && eventIndex == old(eventIndex)
    {
      ghost var before := View();
      for n := 0 to |candidates|
        invariant View() == Activate(before, time, candidates[..n]) && eventIndex == old(eventIndex)
      {
        var p := candidates[n];
        assert candidates[..n + 1][..n] == candidates[..n];
        var k := Find(active, p.id);
        active := if k == |active| then active + [p] else active[k := p];
        ledger := ledger + [Opened(time, p, balance)];
      }
      assert candidates[..|candidates|] == candidates;
    }

    method OpenPositions(time: int)
      requires AllFit(plan, groups)
      modifies this
      ensures View() == OpenAll(old(View()), time, Candidates(plan, groups, time, old(balance)))
      ensures eventIndex == old(eventIndex)
    {
      var candidates := Candidates(plan, groups, time, balance);
      var entryCost := SumBy(candidates, EntryCostOf);
      var projectedMargin := SumBy(active, MarginOf) + SumBy(candidates, MarginOf);
      if projectedMargin > balance - entryCost {
        failure := Some(InsufficientMarginAtEntry(time, balance, projectedMargin));
        return;
      }
      Admit(entryCost, SumBy(candidates, ExitCostOf), SumBy(candidates, EntryCostOn(Buy)),
        SumBy(candidates, EntryCostOn(Sell)));
      Select(candidates);
      Open(time, candidates);
    }

    method HandleEvent(time: int)
      requires AllFit(plan, groups)
      modifies this
      ensures View() == Handle(plan, groups, old(View()), time) && eventIndex == old(eventIndex)
    {
      ClosePositions(time);
      OpenPositions(time);
    }

    /** The event handled last found the account open for trading. */
    ghost predicate OpenBeforeLast()
      requires SetUp()
      reads this
    {
      0 < eventIndex <= |times| && states[eventIndex - 1].failure.None?
    }

    method HandleNext()
      requires SetUp() && OnTrack() && eventIndex < |times|
      modifies this
      ensures OnTrack() && eventIndex == old(eventIndex) + 1
      ensures old(failure).None? ==> OpenBeforeLast()
    {
      assert IsStep(plan, groups, times, states, eventIndex);
      HandleEvent(times[eventIndex]);
      eventIndex := eventIndex + 1;
    }

    /** The events up to a bar; a refused entry ends the run. */
    method HandleDue(limit: int)
      requires SetUp() && OnTrack() && failure.None?
      modifies this
      ensures OnTrack()
      ensures var due := Later(old(eventIndex), DueBy(times, limit));
              eventIndex <= due && (failure.None? ==> eventIndex == due)
      ensures failure.Some? ==> OpenBeforeLast()
    {
      while eventIndex < |times| && failure.None? && times[eventIndex] <= limit
        invariant OnTrack() && eventIndex >= old(eventIndex)
        invariant eventIndex <= Later(old(eventIndex), DueBy(times, limit))
        invariant failure.Some? ==> OpenBeforeLast()
        decreases |times| - eventIndex
      {
        LimitPassed(times, limit, eventIndex);
        HandleNext();
      }
    }

    /** The events after the last bar, all of them, failures or not. */
    method HandleRest()
      requires SetUp() && OnTrack()
      modifies this
      ensures OnTrack() && eventIndex == |times|
    {
      while eventIndex < |times|
        invariant OnTrack()
        decreases |times| - eventIndex
      {
        HandleNext();
      }
    }

    /** The stop-out check of one bar. */
    method CheckBar(bar: Bar, contractSize: real, stopOutLevel: real) returns (stopped: bool)
      requires failure.None?
      modifies this
      ensures stopped <==> IsStopOut(old(View()), bar, contractSize, stopOutLevel)
      ensures View() == if stopped then StoppedOut(old(View()), bar, contractSize, stopOutLevel) else old(View())
      ensures eventIndex == old(eventIndex)
    {
      stopped := IsStopOut(View(), bar, contractSize, stopOutLevel);
      if stopped {
        var totalMargin := SumBy(active, MarginOf);
        failure := Some(StopOut(bar.time, AdverseEquity(View(), bar, contractSize)));
        balance := Max(0.0, totalMargin * stopOutLevel / 100.0);
        minimumBalance := Min(minimumBalance, balance);
      }
    }

    lemma {:induction false} FailureStays(k: nat, l: nat)
      requires SetUp() && k <= l <= |times| && states[k].failure.Some?
      ensures states[l].failure.Some?
    {
      if k < l {
        FailureStays(k, l - 1);
        assert IsStep(plan, groups, times, states, l - 1);
        HandleKeepsFailure(plan, groups, states[l - 1], times[l - 1]);
      }
    }

    /** Once an entry is refused no bar at or after the one that saw it counts as a stop-out. */
    lemma RefusedStopsNothing(bars: seq<Bar>, n: nat, k: nat, contractSize: real, stopOutLevel: real)
      requires SetUp() && n <= |bars| && k <= |times| && states[k].failure.Some?
      requires forall m :: n <= m < |bars| ==> k <= CheckedAfter(times, bars, m)
      requires NoStopBefore(bars, n, contractSize, stopOutLevel)
      ensures NoStopBefore(bars, |bars|, contractSize, stopOutLevel)
    {
      forall m | 0 <= m < |bars| ensures !StopsAt(bars, m, contractSize, stopOutLevel) {
        if m >= n {
          FailureStays(k, CheckedAfter(times, bars, m));
        }
      }
    }

    /**
     * The last event handled is the one whose entry was refused first, the bars reach it, and no bar stops the account
     * out.
     */
    ghost predicate Refused(bars: seq<Bar>, contractSize: real, stopOutLevel: real)
      requires SetUp()
      reads this
    {
      && OpenBeforeLast() && eventIndex <= Arrived(times, bars, |bars|)
      && NoStopBefore(bars, |bars|, contractSize, stopOutLevel)
    }

    /** How a run goes on from bar `n`, or how a refused entry ended it. */
    ghost predicate Running(bars: seq<Bar>, n: nat, contractSize: real, stopOutLevel: real)
      requires SetUp()
      reads this
    {
      && n <= |bars| && OnTrack()
      && (failure.None? ==> eventIndex == Arrived(times, bars, n) && NoStopBefore(bars, n, contractSize, stopOutLevel))
      && (failure.Some? ==> Refused(bars, contractSize, stopOutLevel))
    }

    /**
     * How a run ends: stopped out at the first bar that stops the account made by the events handled until then; or
     * right after the first refused entry, if the bars reach one; or with every event handled.
     */
    ghost predicate Ended(bars: seq<Bar>, contractSize: real, stopOutLevel: real)
      requires SetUp()
      reads this
    {
      if failure.Some? && failure.value.StopOut? then
        exists n: nat :: EndsAt(bars, n, contractSize, stopOutLevel)
      else
        && OnTrack() && NoStopBefore(bars, |bars|, contractSize, stopOutLevel)
        && if states[Arrived(times, bars, |bars|)].failure.Some? then
             failure.Some? && Refused(bars, contractSize, stopOutLevel)
           else eventIndex == |times|
    }

    /** The events up to the time of bar `n`. */
    method ReachBar(bars: seq<Bar>, n: nat, contractSize: real, stopOutLevel: real)
      requires SetUp() && n < |bars| && Running(bars, n, contractSize, stopOutLevel) && failure.None?
      modifies this
      ensures OnTrack()
      ensures failure.None? ==>
        eventIndex == CheckedAfter(times, bars, n) && NoStopBefore(bars, n, contractSize, stopOutLevel)
      ensures failure.Some? ==> Refused(bars, contractSize, stopOutLevel)
    {
      HandleDue(bars[n].time);
      if failure.Some? {
        forall m | n <= m < |bars| ensures eventIndex <= CheckedAfter(times, bars, m) {
          if n < m {
            ChecksFollow(times, bars, n, n + 1, m);
          }
        }
        RefusedStopsNothing(bars, n, eventIndex, contractSize, stopOutLevel);
        BarReaches(times, bars, n, n + 1);
        ArrivedGrows(times, bars, n + 1, |bars|);
      }
    }

    /** The events up to one minute past the time of bar `n`. */
    method LeaveBar(bars: seq<Bar>, n: nat, next: nat, contractSize: real, stopOutLevel: real)
      requires SetUp() && n < |bars| && next == n + 1 && OnTrack() && failure.None?
      requires eventIndex == CheckedAfter(times, bars, n) && NoStopBefore(bars, next, contractSize, stopOutLevel)
      modifies this
      ensures Running(bars, next, contractSize, stopOutLevel)
    {
      BarReaches(times, bars, n, next);
      HandleDue(bars[n].time + ONE_MINUTE);
      if failure.Some? {
        forall m | next <= m < |bars| ensures eventIndex <= CheckedAfter(times, bars, m) {
          ChecksFollow(times, bars, n, next, m);
        }
        RefusedStopsNothing(bars, next, eventIndex, contractSize, stopOutLevel);
        ArrivedGrows(times, bars, next, |bars|);
      }
    }

    /** One bar: the events up to its time, the stop-out check, the events up to a minute later. */
    method HandleBar(bars: seq<Bar>, n: nat, contractSize: real, stopOutLevel: real) returns (stopped: bool)
      requires SetUp() && n < |bars| && Running(bars, n, contractSize, stopOutLevel) && failure.None?
      modifies this
      ensures stopped ==> eventIndex <= |times| && Ended(bars, contractSize, stopOutLevel)
      ensures !stopped ==> Running(bars, n + 1, contractSize, stopOutLevel)
    {
      ReachBar(bars, n, contractSize, stopOutLevel);
      if failure.Some? {
        return false;
      }
      stopped := CheckBar(bars[n], contractSize, stopOutLevel);
      if stopped {
        assert EndsAt(bars, n, contractSize, stopOutLevel);
      } else {
        LeaveBar(bars, n, n + 1, contractSize, stopOutLevel);
      }
    }

    lemma {:induction false} FailureIsRefusal(k: nat)
      requires SetUp() && k <= |times|
      ensures states[k].failure.None? || states[k].failure.value.InsufficientMarginAtEntry?
    {
      if k > 0 {
        FailureIsRefusal(k - 1);
        assert IsStep(plan, groups, times, states, k - 1);
        HandleOnlyRefuses(plan, groups, states[k - 1], times[k - 1]);
      }
    }

    /** The events after the last bar, unless an entry was refused. */
    method Finish(bars: seq<Bar>, n: nat, contractSize: real, stopOutLevel: real)
      requires SetUp() && Running(bars, n, contractSize, stopOutLevel) && (n == |bars| || failure.Some?)
      modifies this
      ensures eventIndex <= |times| && Ended(bars, contractSize, stopOutLevel)
    {
      if failure.Some? {
        FailureStays(eventIndex, Arrived(times, bars, |bars|));
      } else {
        HandleRest();
      }
      FailureIsRefusal(eventIndex);
      assert View().failure == failure;
    }

    method Simulate(bars: seq<Bar>, contractSize: real, stopOutLevel: real)
      requires Valid() && View() == Opening(start) && eventIndex == 0
      modifies this
      ensures Valid() && Ended(bars, contractSize, stopOutLevel)
    {
      var n := 0;
      while n < |bars| && failure.None?
        invariant Running(bars, n, contractSize, stopOutLevel)
        decreases |bars| - n, if failure.None? then 1 else 0
      {
        var stopped := HandleBar(bars, n, contractSize, stopOutLevel);
        if stopped {
          return;
        }
        n := n + 1;
      }
      Finish(bars, n, contractSize, stopOutLevel);
    }
  }

  lemma HandleKeepsFailure(plan: LotPlan, groups: seq<Group>, b: Book, time: int)
    requires AllFit(plan, groups) && b.failure.Some?
    ensures Handle(plan, groups, b, time).failure.Some?
  {
    CloseListKeepsFailure(b, time, ClosesAt(b, time));
    var d := CloseList(b, time, ClosesAt(b, time));
    var ps := Candidates(plan, groups, time, d.balance);
    OpenKeepsFailure(Register(ChargeFor(d, ps), ps), time, ps);
    OpenKeepsFailure(ChargeFor(d, ps), time, ps);
  }

  lemma CloseListKeepsFailure(b: Book, time: int, ps: seq<Position>)
    ensures CloseList(b, time, ps).failure == b.failure
  {
  }

  lemma OpenKeepsFailure(b: Book, time: int, ps: seq<Position>)
    ensures Activate(b, time, ps).failure == b.failure && Register(b, ps).failure == b.failure
  {
  }

  /** Handling one event fails only by refusing an entry. */
  lemma HandleOnlyRefuses(plan: LotPlan, groups: seq<Group>, b: Book, time: int)
    requires AllFit(plan, groups) && (b.failure.None? || b.failure.value.InsufficientMarginAtEntry?)
    ensures var f := Handle(plan, groups, b, time).failure; f.None? || f.value.InsufficientMarginAtEntry?
  {
    CloseListKeepsFailure(b, time, ClosesAt(b, time));
    var d := CloseList(b, time, ClosesAt(b, time));
    var ps := Candidates(plan, groups, time, d.balance);
    OpenKeepsFailure(Register(ChargeFor(d, ps), ps), time, ps);
    OpenKeepsFailure(ChargeFor(d, ps), time, ps);
  }
}
