/** What the books of the shared account say in every state: the ledger, the costs and the margin in use. */
module PortfolioAccounts {
  import opened Prelude
  import opened Legs
  import opened Portfolio
  import opened PortfolioTheorems
  import opened PortfolioMarks

  // ---- Ledger lines ----

  function OpenedIn(ledger: seq<Event>): seq<Position> {
    if ledger == [] then []
    else
      var n := |ledger| - 1;
      if ledger[n].Opened? then OpenedIn(ledger[..n]) + [ledger[n].position] else OpenedIn(ledger[..n])
  }

  function ClosedIn(ledger: seq<Event>): seq<Position> {
    if ledger == [] then []
    else
      var n := |ledger| - 1;
      if ledger[n].Closed? then ClosedIn(ledger[..n]) + [ledger[n].position] else ClosedIn(ledger[..n])
  }

  lemma OneMoreLine(ledger: seq<Event>, e: Event)
    ensures OpenedIn(ledger + [e]) == if e.Opened? then OpenedIn(ledger) + [e.position] else OpenedIn(ledger)
    ensures ClosedIn(ledger + [e]) == if e.Closed? then ClosedIn(ledger) + [e.position] else ClosedIn(ledger)
  {
    assert (ledger + [e])[..|ledger|] == ledger;
  }

  predicate OnTime(e: Event) {
    e.time == if e.Opened? then e.position.id.openedAt else e.position.closedAt
  }

  /**
   * The ledger opens the selected positions in order, closes each of them once unless it is still open, and every
   * line stands at the recorded time of its position.
   */
  ghost predicate LedgerTells(b: Book) {
    Tells(b.ledger, b.active, b.selected)
  }

  ghost predicate Tells(ledger: seq<Event>, active: seq<Position>, selected: seq<Position>) {
    && OpenedIn(ledger) == selected
    && |ClosedIn(ledger)| + |active| == |selected|
    && (forall p :: p in selected <==> p in active || p in ClosedIn(ledger))
    && (forall e :: e in ledger ==> OnTime(e))
  }

  lemma ClosingLineTells(ledger: seq<Event>, active: seq<Position>, rest: seq<Position>, selected: seq<Position>,
      e: Event)
    requires Tells(ledger, active, selected) && e.Closed? && OnTime(e) && e.position in active
    requires |rest| + 1 == |active| && forall q :: q in rest <==> q in active && q != e.position
    ensures Tells(ledger + [e], rest, selected)
  {
    OneMoreLine(ledger, e);
  }

  /** Total costs are those of the selected positions. */
  ghost predicate CostsAreTotals(b: Book) {
    && b.totalEntryCost == SumBy(b.selected, EntryCostOf)
    && b.totalExitCost == SumBy(b.selected, ExitCostOf)
  }

  ghost predicate Booked(b: Book) {
    LedgerTells(b) && CostsAreTotals(b)
  }

  // ---- Closing ----

  lemma SameLine(b: Book, time: int, p: Position, c: Book)
    requires p in b.active && c == CloseOne(b, time, p)
    ensures c.ledger == b.ledger + [Closed(time, p, c.balance)]
    ensures c.totalEntryCost == b.totalEntryCost && c.totalExitCost == b.totalExitCost && c.selected == b.selected
  {
  }

  lemma CloseOneBooks(b: Book, start: real, time: int, p: Position)
    requires Balanced(b, start) && Consistent(b) && Booked(b) && p in b.active && p.closedAt == time
    ensures Booked(CloseOne(b, time, p))
  {
    CloseOneSettles(b, start, time, p);
    var c := CloseOne(b, time, p);
    SameLine(b, time, p, c);
    ClosingLineTells(b.ledger, b.active, c.active, b.selected, Closed(time, p, c.balance));
  }

  lemma {:induction false} CloseListBooks(b: Book, start: real, time: int, ps: seq<Position>)
    requires Balanced(b, start) && Consistent(b) && Booked(b) && DistinctIds(ps)
    requires forall p :: p in ps ==> p in b.active && p.closedAt == time
    ensures Booked(CloseList(b, time, ps))
    ensures CloseList(b, time, ps).failure == b.failure
  {
    if ps != [] {
      var n := |ps| - 1;
      Snoc(ps);
      CloseListBooks(b, start, time, ps[..n]);
      CloseListSettles(b, start, time, ps[..n]);
      assert ps[n] !in ps[..n] && ps[n] in b.active;
      CloseOneBooks(CloseList(b, time, ps[..n]), start, time, ps[n]);
    }
  }

  lemma CloseTimeBooks(b: Book, start: real, now: int, time: int)
    requires Inv(b, start, now) && now < time && Booked(b)
    requires forall q :: q in b.selected ==> !(now < q.closedAt < time)
    ensures Booked(CloseList(b, time, ClosesAt(b, time)))
  {
    DueMembers(b.selected, time);
    CloseListBooks(b, start, time, ClosesAt(b, time));
  }

  // ---- Opening ----

  lemma {:induction false} ActivateWrites(b: Book, time: int, ps: seq<Position>)
    requires forall p :: p in ps ==> p.id.openedAt == time
    requires forall e :: e in b.ledger ==> OnTime(e)
    ensures var c := Activate(b, time, ps);
            && OpenedIn(c.ledger) == OpenedIn(b.ledger) + ps && ClosedIn(c.ledger) == ClosedIn(b.ledger)
            && (forall e :: e in c.ledger ==> OnTime(e))
  {
    if ps == [] {
      assert OpenedIn(b.ledger) + ps == OpenedIn(b.ledger);
    } else {
      var n := |ps| - 1;
      Snoc(ps);
      assert ps[n] in ps;
      ActivateWrites(b, time, ps[..n]);
      var c := Activate(b, time, ps[..n]);
      OneMoreLine(c.ledger, Opened(time, ps[n], c.balance));
      assert OpenedIn(b.ledger) + ps == (OpenedIn(b.ledger) + ps[..n]) + [ps[n]];
    }
  }

  lemma JoinedMembers(xs: seq<Position>, ps: seq<Position>, closed: seq<Position>, selected: seq<Position>)
    requires forall p :: p in selected <==> p in xs || p in closed
    ensures forall p :: p in selected + ps <==> p in xs + ps || p in closed
  {
  }

  lemma AdmitAllBooks(b: Book, time: int, ps: seq<Position>)
    requires Consistent(b) && DistinctIds(ps) && Booked(b)
    requires forall p :: p in ps ==> p.id.openedAt == time && Costed(p)
    requires forall q :: q in b.selected ==> q.id.openedAt < time
    ensures Booked(Activate(Register(ChargeFor(b, ps), ps), time, ps))
  {
    AdmitAllShape(b, time, ps);
    RegisterKeepsLedger(ChargeFor(b, ps), ps);
    ActivateWrites(Register(ChargeFor(b, ps), ps), time, ps);
    JoinedMembers(b.active, ps, ClosedIn(b.ledger), b.selected);
    SumByConcat(b.selected, ps, EntryCostOf);
    SumByConcat(b.selected, ps, ExitCostOf);
  }

  lemma {:induction false} RegisterKeepsLedger(b: Book, ps: seq<Position>)
    ensures Register(b, ps).ledger == b.ledger
  {
    if ps != [] {
      RegisterKeepsLedger(b, ps[..|ps| - 1]);
    }
  }

  lemma OpenAllBooks(b: Book, time: int, ps: seq<Position>)
    requires Consistent(b) && DistinctIds(ps) && Booked(b)
    requires forall p :: p in ps ==> p.id.openedAt == time && Costed(p)
    requires forall q :: q in b.selected ==> q.id.openedAt < time
    ensures Booked(OpenAll(b, time, ps))
  {
    if !(SumBy(b.active, MarginOf) + SumBy(ps, MarginOf) > b.balance - SumBy(ps, EntryCostOf)) {
      AdmitAllBooks(b, time, ps);
    }
  }

  // ---- Over a run ----

  lemma HandleBooks(plan: LotPlan, groups: seq<Group>, b: Book, start: real, now: int, time: int)
    requires AllFit(plan, groups) && SoundGroups(groups) && Inv(b, start, now) && now < time && Booked(b)
    requires forall q :: q in b.selected ==> !(now < q.closedAt < time)
    ensures Booked(Handle(plan, groups, b, time))
  {
    CloseTimeSettles(b, start, now, time);
    CloseTimeBooks(b, start, now, time);
    var c := CloseList(b, time, ClosesAt(b, time));
    CandidatesAreFresh(plan, groups, time, c.balance);
    OpenAllBooks(c, time, Candidates(plan, groups, time, c.balance));
  }

  lemma NextIsBooked(plan: LotPlan, groups: seq<Group>, times: seq<int>, start: real, k: nat, b: Book, c: Book)
    requires AllFit(plan, groups) && SoundGroups(groups) && Covers(groups, times) && Ascending(times)
    requires 0 < k <= |times| && b == HandleAll(plan, groups, Opening(start), times[..k - 1]) && Booked(b)
    requires c == HandleAll(plan, groups, Opening(start), times[..k])
    ensures Booked(c)
  {
    var now := BeforeNext(plan, groups, times, start, k - 1);
    HandleAllNext(plan, groups, times, start, k);
    HandleBooks(plan, groups, b, start, now, times[k - 1]);
  }

  /** In every state the ledger tells what was opened and closed, and the costs are those of what was selected. */
  lemma {:induction false} EveryStateIsBooked(
      plan: LotPlan, groups: seq<Group>, times: seq<int>, start: real, k: nat, b: Book)
    requires AllFit(plan, groups) && SoundGroups(groups) && Covers(groups, times) && Ascending(times) && k <= |times|
    requires b == HandleAll(plan, groups, Opening(start), times[..k])
    ensures Booked(b)
  {
    if k == 0 {
      assert b == Opening(start);
    } else {
      var before := HandleAll(plan, groups, Opening(start), times[..k - 1]);
      EveryStateIsBooked(plan, groups, times, start, k - 1, before);
      NextIsBooked(plan, groups, times, start, k, before, b);
    }
  }

  // ---- Margin ----

  /**
   * The signals of a time are refused exactly when the balance after its closes, less their entry costs, does not
   * cover the margin of what would then be open; and then nothing is opened or charged.
   */
  lemma RefusedIffUncovered(plan: LotPlan, groups: seq<Group>, b: Book, time: int)
    requires AllFit(plan, groups) && b.failure.None?
    ensures var d := CloseList(b, time, ClosesAt(b, time));
            var ps, c := Candidates(plan, groups, time, d.balance), Handle(plan, groups, b, time);
            && (c.failure.Some? <==> d.balance - SumBy(ps, EntryCostOf) < SumBy(d.active + ps, MarginOf))
            && (c.failure.Some? ==>
                  c == d.(failure := Some(InsufficientMarginAtEntry(time, d.balance, SumBy(d.active + ps, MarginOf)))))
  {
    var d := CloseList(b, time, ClosesAt(b, time));
    CloseListKeepsFailure(b, time, ClosesAt(b, time));
    OpenAllRefuses(d, time, Candidates(plan, groups, time, d.balance));
  }

  lemma OpenAllRefuses(d: Book, time: int, ps: seq<Position>)
    requires d.failure.None?
    ensures var c := OpenAll(d, time, ps);
            && (c.failure.Some? <==> d.balance - SumBy(ps, EntryCostOf) < SumBy(d.active + ps, MarginOf))
            && (c.failure.Some? ==>
                  c == d.(failure := Some(InsufficientMarginAtEntry(time, d.balance, SumBy(d.active + ps, MarginOf)))))
  {
    SumByConcat(d.active, ps, MarginOf);
    OpenKeepsFailure(Register(ChargeFor(d, ps), ps), time, ps);
    OpenKeepsFailure(ChargeFor(d, ps), time, ps);
  }

  /** As long as nothing was refused, the balance covers the margin of everything open after every event. */
  lemma MarginIsCovered(plan: LotPlan, groups: seq<Group>, times: seq<int>, start: real, k: nat)
    requires AllFit(plan, groups) && SoundGroups(groups) && Covers(groups, times) && Ascending(times)
    requires 0 < k <= |times|
    ensures var b := HandleAll(plan, groups, Opening(start), times[..k]);
            b.failure.None? ==> SumBy(b.active, MarginOf) <= b.balance
  {
    var now := BeforeNext(plan, groups, times, start, k - 1);
    HandleAllNext(plan, groups, times, start, k);
    HandleCovers(plan, groups, HandleAll(plan, groups, Opening(start), times[..k - 1]), start, now, times[k - 1]);
  }

  lemma HandleCovers(plan: LotPlan, groups: seq<Group>, b: Book, start: real, now: int, time: int)
    requires AllFit(plan, groups) && SoundGroups(groups) && Inv(b, start, now) && now < time
    requires forall q :: q in b.selected ==> !(now < q.closedAt < time)
    ensures var c := Handle(plan, groups, b, time); c.failure.None? ==> SumBy(c.active, MarginOf) <= c.balance
  {
    CloseTimeSettles(b, start, now, time);
    var d := CloseList(b, time, ClosesAt(b, time));
    var ps := Candidates(plan, groups, time, d.balance);
    CandidatesAreFresh(plan, groups, time, d.balance);
    OpenAllCovers(d, time, ps);
  }

  lemma OpenAllCovers(b: Book, time: int, ps: seq<Position>)
    requires Consistent(b) && DistinctIds(ps)
    requires forall p :: p in ps ==> p.id.openedAt == time && Costed(p)
    requires forall q :: q in b.selected ==> q.id.openedAt < time
    ensures var c := OpenAll(b, time, ps); c.failure.None? ==> SumBy(c.active, MarginOf) <= c.balance
  {
    AdmitAllShape(b, time, ps);
    SumByConcat(b.active, ps, MarginOf);
  }

  // ---- Marks and closes ----

  function CloseProfitOf(p: Position): real { p.closeProfit }

  lemma {:induction false} CloseListPays(b: Book, start: real, time: int, ps: seq<Position>)
    requires Balanced(b, start) && Consistent(b) && DistinctIds(ps) && forall p :: p in ps ==> p in b.active
    ensures CloseList(b, time, ps).balance == b.balance + SumBy(ps, CloseProfitOf)
  {
    if ps != [] {
      var n := |ps| - 1;
      Snoc(ps);
      CloseListPays(b, start, time, ps[..n]);
      CloseListSettles(b, start, time, ps[..n]);
      assert ps[n] !in ps[..n] && ps[n] in b.active;
      assert ps[n] in CloseList(b, time, ps[..n]).active;
    }
  }

  /**
   * The equity at a price is what closing everything there would leave, before exit costs. The two meet when the
   * open positions settle at that price.
   */
  lemma EquityIsWhatClosingLeaves(b: Book, start: real, time: int, price: real, contractSize: real)
    requires Balanced(b, start) && Consistent(b)
    requires forall p :: p in b.active ==>
      FloatingProfit(p, price, contractSize) == p.grossProfit && p.closeProfit == p.grossProfit - p.exitCost
    ensures Equity(b, price, contractSize) == CloseList(b, time, b.active).balance + SumBy(b.active, ExitCostOf)
  {
    CloseListPays(b, start, time, b.active);
    assert forall i :: 0 <= i < |b.active| ==> b.active[i] in b.active;
    SumBySplit(b.active, Floating(price, contractSize), CloseProfitOf, ExitCostOf);
  }
}
