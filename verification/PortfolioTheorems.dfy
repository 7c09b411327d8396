/** Conservation of the shared account over every run. */
module PortfolioTheorems {
  import opened Prelude
  import opened Legs
  import opened Portfolio

  // ---- What the report loader supplies ----

  ghost predicate DistinctIds(ps: seq<Position>) {
    forall i, j :: 0 <= i < j < |ps| ==> ps[i].id != ps[j].id
  }

  ghost predicate SoundVariant(g: Group, v: nat)
    requires v < |g.variants|
  {
    var ps := g.variants[v].positions;
    && DistinctIds(ps)
    && (forall p :: p in ps ==> p.id.openedAt == g.openedAt && Costed(p))
  }

  /** Execution costs cannot be negative, and a position settles its close profit less its entry cost. */
  ghost predicate Costed(p: Position) {
    p.profit == p.closeProfit - p.entryCost && p.entryCost >= 0.0
  }

  /** Positions carry their group's opening time, and no two groups share an id. */
  ghost predicate SoundGroups(groups: seq<Group>) {
    && (forall i, v :: 0 <= i < |groups| && 0 <= v < |groups[i].variants| ==> SoundVariant(groups[i], v))
    && (forall i, j, p, q :: 0 <= i < j < |groups| && Offers(groups[i], p) && Offers(groups[j], q) ==> p.id != q.id)
  }

  // ---- The accounting invariant ----

  function ProfitOn(side: Side): Position -> real { (p: Position) => IfSide(side, p, p.profit) }
  function CloseProfitOn(side: Side): Position -> real { (p: Position) => IfSide(side, p, p.closeProfit) }

  function Realized(b: Book, side: Side): real {
    if side.Buy? then b.realizedBuy else b.realizedSell
  }

  function Due(ps: seq<Position>, time: int): seq<Position> {
    if ps == [] then []
    else
      var n := |ps| - 1;
      if ps[n].closedAt == time then Due(ps[..n], time) + [ps[n]] else Due(ps[..n], time)
  }

  lemma {:induction false} DueMembers(ps: seq<Position>, time: int)
    ensures forall p :: p in Due(ps, time) <==> p in ps && p.closedAt == time
    ensures DistinctIds(ps) ==> DistinctIds(Due(ps, time))
  {
    if ps != [] {
      var n := |ps| - 1;
      DueMembers(ps[..n], time);
      var d := Due(ps[..n], time);
      assert ps == ps[..n] + [ps[n]];
      if DistinctIds(ps) {
        forall i | 0 <= i < |d| ensures d[i].id != ps[n].id {
          assert d[i] in ps[..n];
        }
      }
    }
  }

  lemma DueAppend(ps: seq<Position>, p: Position, time: int)
    ensures Due(ps + [p], time) == if p.closedAt == time then Due(ps, time) + [p] else Due(ps, time)
  {
    assert (ps + [p])[..|ps|] == ps;
  }

  ghost predicate Balanced(b: Book, start: real) {
    && b.balance == start + b.realizedBuy + b.realizedSell
    && (forall side :: SumBy(b.selected, ProfitOn(side)) == Realized(b, side) + SumBy(b.active, CloseProfitOn(side)))
    && b.minimumBalance <= b.balance <= b.peakBalance
    && b.peakBalance - b.balance <= b.maximumRealizedDrawdown
  }

  ghost predicate Consistent(b: Book) {
    && DistinctIds(b.selected) && DistinctIds(b.active)
    && (forall p :: p in b.active ==> p in b.selected)
    && (forall p :: p in b.selected ==> Costed(p))
    && (forall time :: ClosesAt(b, time) == Due(b.selected, time))
  }

  /** After the events up to `now`, what is open is what has not come due, and what came due before it opened. */
  ghost predicate UpTo(b: Book, now: int) {
    && (forall p :: p in b.selected ==> p.id.openedAt <= now)
    && (forall p :: p in b.selected ==> (p in b.active <==> now < p.closedAt || p.closedAt <= p.id.openedAt))
  }

  ghost predicate Inv(b: Book, start: real, now: int) {
    Balanced(b, start) && Consistent(b) && UpTo(b, now)
  }

  // ---- Closing ----

  lemma UniqueById(ps: seq<Position>, p: Position, q: Position)
    requires DistinctIds(ps) && p in ps && q in ps && p.id == q.id
    ensures p == q
  {
    var i :| 0 <= i < |ps| && ps[i] == p;
    var j :| 0 <= j < |ps| && ps[j] == q;
    assert i == j || i < j || j < i;
  }

  /** Closing an open position moves its close profit from the open book to the realized side. */
  lemma CloseOneSettles(b: Book, start: real, time: int, p: Position)
    requires Balanced(b, start) && Consistent(b) && p in b.active
    ensures var c := CloseOne(b, time, p);
            && Balanced(c, start) && Consistent(c) && c.selected == b.selected
            && (forall q :: q in c.active <==> q in b.active && q != p)
            && |c.active| + 1 == |b.active|
  {
    var k := Find(b.active, p.id);
    var i :| 0 <= i < |b.active| && b.active[i] == p;
    UniqueById(b.active, b.active[k], p);
    var rest := b.active[..k] + b.active[k + 1..];
    var c := CloseOne(b, time, p);
    assert c.active == rest;
    RestMembers(b.active, k);
    forall side ensures SumBy(c.selected, ProfitOn(side)) == Realized(c, side) + SumBy(c.active, CloseProfitOn(side)) {
      SumByRemove(b.active, k, CloseProfitOn(side));
    }
    forall t ensures ClosesAt(c, t) == Due(c.selected, t) {
      assert ClosesAt(c, t) == ClosesAt(b, t);
    }
  }

  lemma RestMembers(ps: seq<Position>, k: nat)
    requires k < |ps| && DistinctIds(ps)
    ensures var rest := ps[..k] + ps[k + 1..];
            && DistinctIds(rest) && (forall q :: q in rest <==> q in ps && q != ps[k])
  {
    var rest := ps[..k] + ps[k + 1..];
    forall q ensures q in rest <==> q in ps && q != ps[k] {
      if q in ps && q != ps[k] {
        var i :| 0 <= i < |ps| && ps[i] == q;
        assert rest[if i < k then i else i - 1] == q;
      }
    }
  }

  lemma {:induction false} CloseListSettles(b: Book, start: real, time: int, ps: seq<Position>)
    requires Balanced(b, start) && Consistent(b) && DistinctIds(ps)
    requires forall p :: p in ps ==> p in b.active
    ensures var c := CloseList(b, time, ps);
            && Balanced(c, start) && Consistent(c) && c.selected == b.selected
            && (forall q :: q in c.active <==> q in b.active && q !in ps)
            && |c.active| + |ps| == |b.active|
  {
    if ps != [] {
      var n := |ps| - 1;
      assert ps == ps[..n] + [ps[n]];
      CloseListSettles(b, start, time, ps[..n]);
      var c := CloseList(b, time, ps[..n]);
      assert ps[n] !in ps[..n] && ps[n] in b.active;
      CloseOneSettles(c, start, time, ps[n]);
    }
  }

  /** Everything due at `time` is closed, and nothing else. */
  lemma CloseTimeSettles(b: Book, start: real, now: int, time: int)
    requires Inv(b, start, now) && now < time
    requires forall q :: q in b.selected ==> !(now < q.closedAt < time)
    ensures var c := CloseList(b, time, ClosesAt(b, time));
            && Balanced(c, start) && Consistent(c) && c.selected == b.selected
            && (forall q :: q in c.selected ==>
                  q.id.openedAt < time && (q in c.active <==> time < q.closedAt || q.closedAt <= q.id.openedAt))
  {
    var due := ClosesAt(b, time);
    DueMembers(b.selected, time);
    CloseListSettles(b, start, time, due);
  }

  // ---- Opening ----

  lemma {:induction false} ChargeBalances(ps: seq<Position>)
    requires forall p :: p in ps ==> Costed(p)
    ensures SumBy(ps, EntryCostOf) >= 0.0
    ensures SumBy(ps, EntryCostOf) == SumBy(ps, EntryCostOn(Buy)) + SumBy(ps, EntryCostOn(Sell))
  {
    SumBySplit(ps, EntryCostOf, EntryCostOn(Buy), EntryCostOn(Sell));
    assert ps != [] ==> ps[|ps| - 1] in ps;
    if ps != [] {
      ChargeBalances(ps[..|ps| - 1]);
    }
  }

  lemma SideSums(ps: seq<Position>, side: Side)
    requires forall p :: p in ps ==> Costed(p)
    ensures SumBy(ps, CloseProfitOn(side)) == SumBy(ps, ProfitOn(side)) + SumBy(ps, EntryCostOn(side))
  {
    assert forall i :: 0 <= i < |ps| ==> ps[i] in ps;
    SumBySplit(ps, CloseProfitOn(side), ProfitOn(side), EntryCostOn(side));
  }

  lemma {:induction false} RegisterSelects(b: Book, ps: seq<Position>)
    requires forall t :: ClosesAt(b, t) == Due(b.selected, t)
    ensures var c := Register(b, ps);
            && c.selected == b.selected + ps && c == b.(selected := c.selected, closes := c.closes)
            && forall t :: ClosesAt(c, t) == Due(c.selected, t)
  {
    if ps == [] {
      assert b.selected + ps == b.selected;
    } else {
      var n := |ps| - 1;
      RegisterSelects(b, ps[..n]);
      var c, d := Register(b, ps[..n]), Register(b, ps);
      assert b.selected + ps == (b.selected + ps[..n]) + [ps[n]];
      forall t ensures ClosesAt(d, t) == Due(d.selected, t) {
        DueAppend(c.selected, ps[n], t);
      }
    }
  }

  lemma {:induction false} ActivateOpens(b: Book, time: int, ps: seq<Position>)
    requires DistinctIds(b.active + ps)
    ensures var c := Activate(b, time, ps);
            c.active == b.active + ps && c == b.(active := c.active, ledger := c.ledger)
  {
    if ps == [] {
      assert b.active + ps == b.active;
    } else {
      var n := |ps| - 1;
      var whole := b.active + ps;
      assert whole == (b.active + ps[..n]) + [ps[n]];
      assert whole[..|whole| - 1] == b.active + ps[..n];
      ActivateOpens(b, time, ps[..n]);
      var open := b.active + ps[..n];
      forall i | 0 <= i < |open| ensures open[i].id != ps[n].id {
        assert open[i] == whole[i] && ps[n] == whole[|open|];
      }
    }
  }

  /** Candidates that are new to the book and distinct among themselves keep it balanced when they open. */
  lemma OpenAllBalances(b: Book, start: real, time: int, ps: seq<Position>)
    requires Balanced(b, start) && Consistent(b) && DistinctIds(ps)
    requires forall p :: p in ps ==> p.id.openedAt == time && Costed(p)
    requires forall q :: q in b.selected ==>
      q.id.openedAt < time && (q in b.active <==> time < q.closedAt || q.closedAt <= q.id.openedAt)
    ensures Inv(OpenAll(b, time, ps), start, time)
  {
    var c := OpenAll(b, time, ps);
    if SumBy(b.active, MarginOf) + SumBy(ps, MarginOf) > b.balance - SumBy(ps, EntryCostOf) {
      SameBalance(b, c, start);
    } else {
      AdmitAllBalances(b, start, time, ps);
    }
  }

  lemma AdmitAllBalances(b: Book, start: real, time: int, ps: seq<Position>)
    requires Balanced(b, start) && Consistent(b) && DistinctIds(ps)
    requires forall p :: p in ps ==> p.id.openedAt == time && Costed(p)
    requires forall q :: q in b.selected ==>
      q.id.openedAt < time && (q in b.active <==> time < q.closedAt || q.closedAt <= q.id.openedAt)
    ensures Inv(Activate(Register(ChargeFor(b, ps), ps), time, ps), start, time)
  {
    AdmitAllShape(b, time, ps);
    var c := Activate(Register(ChargeFor(b, ps), ps), time, ps);
    ChargeBalances(ps);
    forall side ensures SumBy(c.selected, ProfitOn(side)) == Realized(c, side) + SumBy(c.active, CloseProfitOn(side)) {
      SumByConcat(b.selected, ps, ProfitOn(side));
      SumByConcat(b.active, ps, CloseProfitOn(side));
      SideSums(ps, side);
    }
    assert Balanced(c, start);
  }

  /** Admitting new positions appends them to the selected and to the open ones, and schedules their closing. */
  lemma AdmitAllShape(b: Book, time: int, ps: seq<Position>)
    requires Consistent(b) && DistinctIds(ps)
    requires forall p :: p in ps ==> p.id.openedAt == time && Costed(p)
    requires forall q :: q in b.selected ==> q.id.openedAt < time
    ensures var c, d := Activate(Register(ChargeFor(b, ps), ps), time, ps), ChargeFor(b, ps);
            && c == d.(active := b.active + ps, selected := b.selected + ps, closes := c.closes, ledger := c.ledger)
            && Consistent(c)
  {
    var d := ChargeFor(b, ps);
    assert forall t :: ClosesAt(d, t) == ClosesAt(b, t);
    RegisterSelects(d, ps);
    JoinDistinct(b.active, ps);
    JoinDistinct(b.selected, ps);
    var e := Register(d, ps);
    ActivateOpens(e, time, ps);
    var c := Activate(e, time, ps);
    forall t ensures ClosesAt(c, t) == Due(c.selected, t) {
      assert ClosesAt(c, t) == ClosesAt(e, t);
    }
  }

  lemma SameBalance(b: Book, c: Book, start: real)
    requires Balanced(b, start) && Consistent(b) && c == b.(failure := c.failure)
    ensures Balanced(c, start) && Consistent(c)
  {
    forall t ensures ClosesAt(c, t) == Due(c.selected, t) {
      assert ClosesAt(c, t) == ClosesAt(b, t);
    }
  }

  lemma JoinDistinct(xs: seq<Position>, ps: seq<Position>)
    requires DistinctIds(xs) && DistinctIds(ps)
    requires forall x, p :: x in xs && p in ps ==> x.id != p.id
    ensures DistinctIds(xs + ps)
  {
    var all := xs + ps;
    forall i, j | 0 <= i < j < |all| ensures all[i].id != all[j].id {
      assert all[i] == if i < |xs| then xs[i] else ps[i - |xs|];
      assert all[j] == if j < |xs| then xs[j] else ps[j - |xs|];
    }
  }

  // ---- Runs ----

  /** What earlier groups offer never shares an id with what the last group offers. */
  lemma OthersOfferOtherIds(groups: seq<Group>, before: seq<Position>, ps: seq<Position>)
    requires groups != [] && SoundGroups(groups)
    requires forall x :: x in before ==> exists h :: h in groups[..|groups| - 1] && Offers(h, x)
    requires forall p :: p in ps ==> Offers(groups[|groups| - 1], p)
    ensures forall x, p :: x in before && p in ps ==> x.id != p.id
  {
    var n := |groups| - 1;
    forall x, p | x in before && p in ps ensures x.id != p.id {
      var h :| h in groups[..n] && Offers(h, x);
      var i :| 0 <= i < n && groups[i] == h;
      assert Offers(groups[i], x) && Offers(groups[n], p);
    }
  }

  lemma {:induction false} CandidatesAreFresh(plan: LotPlan, groups: seq<Group>, time: int, balance: real)
    requires AllFit(plan, groups) && SoundGroups(groups)
    ensures var ps := Candidates(plan, groups, time, balance);
            && DistinctIds(ps)
            && (forall p :: p in ps ==> p.id.openedAt == time && Costed(p) && exists g :: g in groups && Offers(g, p))
  {
    if groups != [] {
      var n := |groups| - 1;
      var rest, g, v := groups[..n], groups[n], VariantIndex(plan, balance);
      assert SoundGroups(rest) by {
        assert forall i :: 0 <= i < n ==> rest[i] == groups[i];
      }
      CandidatesAreFresh(plan, rest, time, balance);
      var before := Candidates(plan, rest, time, balance);
      assert Fits(plan, g) && SoundVariant(g, v);
      forall p | p in before ensures exists h :: h in groups && Offers(h, p) {
        var h :| h in rest && Offers(h, p);
        assert h in groups;
      }
      if g.openedAt == time {
        var ps := g.variants[v].positions;
        assert forall p :: p in ps ==> Offers(g, p);
        OthersOfferOtherIds(groups, before, ps);
        JoinDistinct(before, ps);
      }
    }
  }

  /** Where the positions of a book come from. */
  ghost predicate FromGroups(groups: seq<Group>, b: Book) {
    forall p :: p in b.selected ==> exists g :: g in groups && Offers(g, p)
  }

  lemma HandleKeepsTheAccount(plan: LotPlan, groups: seq<Group>, b: Book, start: real, now: int, time: int)
    requires AllFit(plan, groups) && SoundGroups(groups) && Inv(b, start, now) && FromGroups(groups, b)
    requires now < time && forall q :: q in b.selected ==> !(now < q.closedAt < time)
    ensures var c := Handle(plan, groups, b, time); Inv(c, start, time) && FromGroups(groups, c)
  {
    CloseTimeSettles(b, start, now, time);
    var c := CloseList(b, time, ClosesAt(b, time));
    var ps := Candidates(plan, groups, time, c.balance);
    CandidatesAreFresh(plan, groups, time, c.balance);
    OpenAllBalances(c, start, time, ps);
    SelectedAfter(c, time, ps);
  }

  lemma SelectedAfter(b: Book, time: int, ps: seq<Position>)
    requires Consistent(b)
    ensures var c := OpenAll(b, time, ps); c.selected == b.selected || c.selected == b.selected + ps
  {
    var d := ChargeFor(b, ps);
    assert forall t :: ClosesAt(d, t) == ClosesAt(b, t);
    RegisterSelects(d, ps);
    ActivateKeepsSelected(Register(d, ps), time, ps);
  }

  lemma ActivateKeepsSelected(b: Book, time: int, ps: seq<Position>)
    ensures Activate(b, time, ps).selected == b.selected
  {
  }

  lemma NothingBetween(groups: seq<Group>, b: Book, times: seq<int>, k: nat)
    requires FromGroups(groups, b) && Covers(groups, times) && Ascending(times) && k + 1 < |times|
    ensures forall q :: q in b.selected ==> !(times[k] < q.closedAt < times[k + 1])
  {
    forall q | q in b.selected ensures !(times[k] < q.closedAt < times[k + 1]) {
      var g :| g in groups && Offers(g, q);
      ClosesAtSomeTime(groups, times, g, q, k);
    }
  }

  lemma ClosesAtSomeTime(groups: seq<Group>, times: seq<int>, g: Group, q: Position, k: nat)
    requires Covers(groups, times) && Ascending(times) && k + 1 < |times| && g in groups && Offers(g, q)
    ensures q.closedAt <= times[k] || times[k + 1] <= q.closedAt
  {
    var i :| 0 <= i < |times| && times[i] == q.closedAt;
    assert i <= k || i == k + 1 || k + 1 < i;
  }

  lemma {:induction false} EveryStateIsBalanced(plan: LotPlan, groups: seq<Group>, times: seq<int>, start: real, k: nat)
    requires AllFit(plan, groups) && SoundGroups(groups) && Covers(groups, times) && Ascending(times)
    requires 0 < k <= |times|
    ensures var b := HandleAll(plan, groups, Opening(start), times[..k]);
            Inv(b, start, times[k - 1]) && FromGroups(groups, b)
  {
    var b := HandleAll(plan, groups, Opening(start), times[..k - 1]);
    HandleAllNext(plan, groups, times, start, k);
    if k == 1 {
      assert b == Opening(start);
      HandleKeepsTheAccount(plan, groups, b, start, times[0] - 1, times[0]);
    } else {
      EveryStateIsBalanced(plan, groups, times, start, k - 1);
      NextStateIsBalanced(plan, groups, times, start, b, k - 2);
    }
  }

  lemma NextStateIsBalanced(plan: LotPlan, groups: seq<Group>, times: seq<int>, start: real, b: Book, k: nat)
    requires AllFit(plan, groups) && SoundGroups(groups) && Covers(groups, times) && Ascending(times) && k + 1 < |times|
    requires Inv(b, start, times[k]) && FromGroups(groups, b)
    ensures var c := Handle(plan, groups, b, times[k + 1]); Inv(c, start, times[k + 1]) && FromGroups(groups, c)
  {
    NothingBetween(groups, b, times, k);
    HandleKeepsTheAccount(plan, groups, b, start, times[k], times[k + 1]);
  }

  /** One more event: the state before it is balanced, and nothing comes due in between. */
  lemma BeforeNext(plan: LotPlan, groups: seq<Group>, times: seq<int>, start: real, k: nat) returns (now: int)
    requires AllFit(plan, groups) && SoundGroups(groups) && Covers(groups, times) && Ascending(times) && k < |times|
    ensures var b := HandleAll(plan, groups, Opening(start), times[..k]);
            && Inv(b, start, now) && now < times[k]
            && (forall q :: q in b.selected ==> !(now < q.closedAt < times[k]))
  {
    if k == 0 {
      now := times[0] - 1;
      assert HandleAll(plan, groups, Opening(start), times[..k]) == Opening(start);
    } else {
      now := times[k - 1];
      EveryStateIsBalanced(plan, groups, times, start, k);
      NothingBetween(groups, HandleAll(plan, groups, Opening(start), times[..k]), times, k - 1);
    }
  }

  /** Closed strictly after it opened. */
  predicate Settles(p: Position) {
    p.id.openedAt < p.closedAt
  }

  /** What is open never settles, and the profit of everything selected is in the balance, up to what is open. */
  ghost predicate Accounted(b: Book, start: real) {
    && (forall p :: p in b.active <==> p in b.selected && !Settles(p))
    && b.balance - start == b.realizedBuy + b.realizedSell
    && (forall side :: Realized(b, side) + SumBy(b.active, CloseProfitOn(side)) == SumBy(b.selected, ProfitOn(side)))
  }

  /** The account is flat and has earned exactly the requested net of both sides. */
  ghost predicate EarnedInFull(b: Book, start: real) {
    && b.active == []
    && b.balance - start == SumBy(b.selected, ProfitOf)
    && b.realizedBuy == SumBy(b.selected, ProfitOn(Buy))
    && b.realizedSell == SumBy(b.selected, ProfitOn(Sell))
  }

  /**
   * Conservation over a whole run in which every event was handled. A selected position is still open at the
   * end exactly when its recorded close does not lie after its opening; the net change of the balance is the
   * profit of all selected positions less the close profits of those.
   */
  lemma RunConserves(plan: LotPlan, groups: seq<Group>, start: real)
    requires AllFit(plan, groups) && SoundGroups(groups)
    ensures Accounted(HandleAll(plan, groups, Opening(start), EventTimes(groups)), start)
  {
    var times := EventTimes(groups);
    var b := HandleAll(plan, groups, Opening(start), times);
    EventTimesAreComplete(groups);
    if times != [] {
      var n := |times|;
      assert times[..n] == times;
      EveryStateIsBalanced(plan, groups, times, start, n);
      BalancedIsAccounted(groups, times, start, b);
    }
  }

  lemma BalancedIsAccounted(groups: seq<Group>, times: seq<int>, start: real, b: Book)
    requires times != [] && Covers(groups, times) && Ascending(times) && FromGroups(groups, b)
    requires Inv(b, start, times[|times| - 1])
    ensures Accounted(b, start)
  {
    OnlyUnsettledStayOpen(groups, times, b);
  }

  lemma OnlyUnsettledStayOpen(groups: seq<Group>, times: seq<int>, b: Book)
    requires times != [] && Covers(groups, times) && Ascending(times) && FromGroups(groups, b)
    requires UpTo(b, times[|times| - 1])
    ensures forall p :: p in b.selected ==> (p in b.active <==> !Settles(p))
  {
    forall p | p in b.selected ensures p in b.active <==> !Settles(p) {
      var g :| g in groups && Offers(g, p);
      var i :| 0 <= i < |times| && times[i] == p.closedAt;
      assert times[i] <= times[|times| - 1];
    }
  }

  /** The account ends flat exactly when every selected position settles, and then earns the requested net in full. */
  lemma RunEndsFlat(plan: LotPlan, groups: seq<Group>, start: real)
    requires AllFit(plan, groups) && SoundGroups(groups)
    ensures var b := HandleAll(plan, groups, Opening(start), EventTimes(groups));
            b.active == [] <==> forall p :: p in b.selected ==> Settles(p)
    ensures var b := HandleAll(plan, groups, Opening(start), EventTimes(groups));
            b.active == [] ==> EarnedInFull(b, start)
  {
    var b := HandleAll(plan, groups, Opening(start), EventTimes(groups));
    RunConserves(plan, groups, start);
    if b.active != [] {
      assert b.active[0] in b.active;
    } else {
      SumBySplit(b.selected, ProfitOf, ProfitOn(Buy), ProfitOn(Sell));
    }
  }
}
