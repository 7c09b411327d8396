/** The portfolio run as a whole: what is known before it starts decides whether it ends flat and what it earns. */
module PortfolioRuns {
  import opened Prelude
  import opened Bars
  import opened Legs
  import opened Portfolio
  import opened PortfolioTheorems

  // ---- Every signal is admitted in one of its volumes ----

  ghost predicate Within(ps: seq<Position>, qs: seq<Position>) {
    forall p :: p in ps ==> p in qs
  }

  ghost predicate Admitted(g: Group, selected: seq<Position>) {
    exists v :: 0 <= v < |g.variants| && Within(g.variants[v].positions, selected)
  }

  /** The groups that opened at one of these times were admitted. */
  ghost predicate AdmittedBy(groups: seq<Group>, times: seq<int>, selected: seq<Position>) {
    forall g :: g in groups && g.openedAt in times ==> Admitted(g, selected)
  }

  lemma {:induction false} CandidatesHoldEveryGroup(
      plan: LotPlan, groups: seq<Group>, time: int, balance: real, g: Group)
    requires AllFit(plan, groups) && g in groups && g.openedAt == time
    ensures VariantIndex(plan, balance) < |g.variants|
    ensures Within(g.variants[VariantIndex(plan, balance)].positions, Candidates(plan, groups, time, balance))
  {
    var n := |groups| - 1;
    assert Fits(plan, groups[n]) && Fits(plan, g);
    if g != groups[n] {
      assert groups == groups[..n] + [groups[n]];
      CandidatesHoldEveryGroup(plan, groups[..n], time, balance, g);
    }
  }

  /** An opening that is not refused selects every candidate. */
  lemma OpenAllSelects(b: Book, time: int, ps: seq<Position>)
    requires Consistent(b) && OpenAll(b, time, ps).failure.None?
    ensures OpenAll(b, time, ps).selected == b.selected + ps && b.failure.None?
  {
    var d := ChargeFor(b, ps);
    assert forall t :: ClosesAt(d, t) == ClosesAt(b, t);
    RegisterSelects(d, ps);
    ActivateKeepsSelected(Register(d, ps), time, ps);
    OpenKeepsFailure(Register(d, ps), time, ps);
    OpenKeepsFailure(d, time, ps);
  }

  lemma HandleAdmits(plan: LotPlan, groups: seq<Group>, b: Book, c: Book, start: real, now: int, time: int)
    requires AllFit(plan, groups) && SoundGroups(groups) && Inv(b, start, now) && now < time
    requires forall q :: q in b.selected ==> !(now < q.closedAt < time)
    requires c == Handle(plan, groups, b, time) && c.failure.None?
    ensures b.failure.None? && Within(b.selected, c.selected)
    ensures forall g :: g in groups && g.openedAt == time ==> Admitted(g, c.selected)
  {
    CloseTimeSettles(b, start, now, time);
    CloseListKeepsFailure(b, time, ClosesAt(b, time));
    var d := CloseList(b, time, ClosesAt(b, time));
    var ps := Candidates(plan, groups, time, d.balance);
    OpenAllSelects(d, time, ps);
    forall g | g in groups && g.openedAt == time ensures Admitted(g, d.selected + ps) {
      CandidatesHoldEveryGroup(plan, groups, time, d.balance, g);
      var v := VariantIndex(plan, d.balance);
      assert Within(g.variants[v].positions, d.selected + ps);
    }
  }

  lemma AdmittedGrows(g: Group, few: seq<Position>, more: seq<Position>)
    requires Admitted(g, few) && Within(few, more)
    ensures Admitted(g, more)
  {
    var v :| 0 <= v < |g.variants| && Within(g.variants[v].positions, few);
    assert Within(g.variants[v].positions, more);
  }

  lemma AdmittedNext(groups: seq<Group>, times: seq<int>, time: int, few: seq<Position>, more: seq<Position>)
    requires AdmittedBy(groups, times, few) && Within(few, more)
    requires forall g :: g in groups && g.openedAt == time ==> Admitted(g, more)
    ensures AdmittedBy(groups, times + [time], more)
  {
    forall g | g in groups && g.openedAt in times + [time] ensures Admitted(g, more) {
      if g.openedAt != time {
        AdmittedGrows(g, few, more);
      }
    }
  }

  lemma TakeNext<T>(xs: seq<T>, k: nat)
    requires 0 < k <= |xs|
    ensures xs[..k] == xs[..k - 1] + [xs[k - 1]]
  {
  }

  lemma NextAdmits(plan: LotPlan, groups: seq<Group>, times: seq<int>, start: real, k: nat, b: Book, c: Book)
    requires AllFit(plan, groups) && SoundGroups(groups) && Covers(groups, times) && Ascending(times)
    requires 0 < k <= |times| && b == HandleAll(plan, groups, Opening(start), times[..k - 1])
    requires c == HandleAll(plan, groups, Opening(start), times[..k]) && c.failure.None?
    ensures b.failure.None?
    ensures AdmittedBy(groups, times[..k - 1], b.selected) ==> AdmittedBy(groups, times[..k], c.selected)
  {
    HandleAllNext(plan, groups, times, start, k);
    var now := BeforeNext(plan, groups, times, start, k - 1);
    HandleAdmits(plan, groups, b, c, start, now, times[k - 1]);
    TakeNext(times, k);
    if AdmittedBy(groups, times[..k - 1], b.selected) {
      AdmittedNext(groups, times[..k - 1], times[k - 1], b.selected, c.selected);
    }
  }

  /** Without a refusal every group whose time has come is selected in one of its volumes. */
  lemma {:induction false} EveryGroupIsAdmitted(
      plan: LotPlan, groups: seq<Group>, times: seq<int>, start: real, k: nat, c: Book)
    requires AllFit(plan, groups) && SoundGroups(groups) && Covers(groups, times) && Ascending(times) && k <= |times|
    requires c == HandleAll(plan, groups, Opening(start), times[..k]) && c.failure.None?
    ensures AdmittedBy(groups, times[..k], c.selected)
  {
    if k > 0 {
      var b := HandleAll(plan, groups, Opening(start), times[..k - 1]);
      NextAdmits(plan, groups, times, start, k, b, c);
      EveryGroupIsAdmitted(plan, groups, times, start, k - 1, b);
    }
  }

  // ---- What a caller can check before the run ----

  /** Every recorded position closes after it opens, at any volume. */
  ghost predicate AllSettle(groups: seq<Group>) {
    forall g, p :: g in groups && Offers(g, p) ==> Settles(p)
  }

  /** A signal that holds an unsettled position at one volume holds one at every volume. */
  ghost predicate VolumesAgree(g: Group) {
    (exists p :: Offers(g, p) && !Settles(p)) ==> forall v :: 0 <= v < |g.variants| ==> HasUnsettled(g.variants[v])
  }

  ghost predicate HasUnsettled(v: Variant) {
    exists p :: p in v.positions && !Settles(p)
  }

  /** Recorded positions that all close after they open leave the account flat, with everything they earned. */
  lemma SettledInputsEndFlat(plan: LotPlan, groups: seq<Group>, start: real)
    requires AllFit(plan, groups) && SoundGroups(groups) && AllSettle(groups)
    ensures EarnedInFull(HandleAll(plan, groups, Opening(start), EventTimes(groups)), start)
  {
    var b := HandleAll(plan, groups, Opening(start), EventTimes(groups));
    RunEndsFlat(plan, groups, start);
    SelectedComeFromGroups(plan, groups, start);
    forall p | p in b.selected ensures Settles(p) {
      var g :| g in groups && Offers(g, p);
    }
  }

  lemma SelectedComeFromGroups(plan: LotPlan, groups: seq<Group>, start: real)
    requires AllFit(plan, groups) && SoundGroups(groups)
    ensures FromGroups(groups, HandleAll(plan, groups, Opening(start), EventTimes(groups)))
  {
    var times := EventTimes(groups);
    EventTimesAreComplete(groups);
    if times != [] {
      assert times[..|times|] == times;
      EveryStateIsBalanced(plan, groups, times, start, |times|);
    }
  }

  /** A run in which no entry is refused ends flat exactly when every recorded position settles. */
  lemma EndsFlatIffAllSettle(plan: LotPlan, groups: seq<Group>, start: real)
    requires AllFit(plan, groups) && SoundGroups(groups) && forall g :: g in groups ==> VolumesAgree(g)
    requires HandleAll(plan, groups, Opening(start), EventTimes(groups)).failure.None?
    ensures HandleAll(plan, groups, Opening(start), EventTimes(groups)).active == [] <==> AllSettle(groups)
  {
    var times := EventTimes(groups);
    var b := HandleAll(plan, groups, Opening(start), times);
    RunEndsFlat(plan, groups, start);
    if AllSettle(groups) {
      SettledInputsEndFlat(plan, groups, start);
    } else {
      EventTimesAreComplete(groups);
      assert times[..|times|] == times;
      EveryGroupIsAdmitted(plan, groups, times, start, |times|, b);
      UnsettledInputIsSelected(groups, times, b.selected);
    }
  }

  lemma UnsettledInputIsSelected(groups: seq<Group>, times: seq<int>, selected: seq<Position>)
    requires AdmittedBy(groups, times, selected) && (forall g :: g in groups ==> g.openedAt in times && VolumesAgree(g))
    requires !AllSettle(groups)
    ensures exists q :: q in selected && !Settles(q)
  {
    var g, p :| g in groups && Offers(g, p) && !Settles(p);
    UnsettledIsSelected(g, p, selected);
  }

  lemma UnsettledIsSelected(g: Group, p: Position, selected: seq<Position>)
    requires Admitted(g, selected) && VolumesAgree(g) && Offers(g, p) && !Settles(p)
    ensures exists q :: q in selected && !Settles(q)
  {
    var v :| 0 <= v < |g.variants| && Within(g.variants[v].positions, selected);
    assert HasUnsettled(g.variants[v]);
    var q :| q in g.variants[v].positions && !Settles(q);
  }

  /** A single volume always agrees with itself. */
  lemma OneVolumeAgrees(plan: LotPlan, groups: seq<Group>)
    requires AllFit(plan, groups) && VariantCount(plan) == 1
    ensures forall g :: g in groups ==> VolumesAgree(g)
  {
    forall g | g in groups ensures VolumesAgree(g) {
      assert Fits(plan, g);
      if p :| Offers(g, p) && !Settles(p) {
        assert HasUnsettled(g.variants[0]);
      }
    }
  }

  /** With static lots the condition is exact for every recorded input. */
  lemma StaticEndsFlatIffAllSettle(groups: seq<Group>, start: real)
    requires AllFit(Static, groups) && SoundGroups(groups)
    requires HandleAll(Static, groups, Opening(start), EventTimes(groups)).failure.None?
    ensures HandleAll(Static, groups, Opening(start), EventTimes(groups)).active == [] <==> AllSettle(groups)
  {
    OneVolumeAgrees(Static, groups);
    EndsFlatIffAllSettle(Static, groups, start);
  }

  /** The failing input: a position recorded as closed at the time it opened is still open at the end. */
  lemma UnsettledStaysOpen(start: real) returns (groups: seq<Group>, p: Position)
    requires start >= 0.0
    ensures AllFit(Static, groups) && SoundGroups(groups)
    ensures var b := HandleAll(Static, groups, Opening(start), EventTimes(groups));
            p.closedAt == p.id.openedAt && b.failure.None? && p in b.active
  {
    p := Position(Id(Buy, 0, 1.0, Full), 0.01, 0, 1.0, 0.0, 0.0, 0.0, 0.0, 0.0, 0.0, 0.0);
    var g := Group(0, [Variant(0.01, [p])]);
    groups := [g];
    OneGroupIsSound(g, p);
    OneGroupTimes(g, p);
    OneGroupRun(g, p, start);
  }

  lemma OneGroupIsSound(g: Group, p: Position)
    requires g.variants == [Variant(0.01, [p])] && p.id.openedAt == g.openedAt && Costed(p)
    ensures SoundGroups([g])
  {
    assert SoundVariant(g, 0);
  }

  lemma OneGroupTimes(g: Group, p: Position)
    requires g.variants == [Variant(0.01, [p])] && p.closedAt == g.openedAt
    ensures EventTimes([g]) == [g.openedAt]
  {
    var queue := InsertTime(g.openedAt, []);
    assert queue == [g.openedAt];
    assert InsertAll([], queue) == queue && [p][..0] == [];
    assert InsertAll([p], queue) == InsertTime(p.closedAt, queue) == queue;
    assert InsertVariants([], queue) == queue && g.variants[..0] == [];
    assert InsertVariants(g.variants, queue) == queue;
    assert [g][..0] == [] && EventTimes([]) == [];
  }

  lemma OneGroupRun(g: Group, p: Position, start: real)
    requires g.variants == [Variant(0.01, [p])] && p.margin == p.entryCost == 0.0 && start >= 0.0
    ensures AllFit(Static, [g])
    ensures var b := HandleAll(Static, [g], Opening(start), [g.openedAt]);
            b.failure.None? && b.active == [p]
  {
    var b := Opening(start);
    assert Fits(Static, g);
    OneCandidate(g, p, start);
    OneOpens(b, g.openedAt, p);
    assert CloseList(b, g.openedAt, ClosesAt(b, g.openedAt)) == b;
    assert [g.openedAt][..0] == [] && HandleAll(Static, [g], b, []) == b;
  }

  lemma OneCandidate(g: Group, p: Position, balance: real)
    requires g.variants == [Variant(0.01, [p])] && AllFit(Static, [g])
    ensures Candidates(Static, [g], g.openedAt, balance) == [p]
  {
    assert [g][..0] == [];
    assert Candidates(Static, [], g.openedAt, balance) == [];
    assert [] + [p] == [p];
  }

  lemma OneOpens(b: Book, time: int, p: Position)
    requires p.margin == p.entryCost == 0.0 && b.balance >= 0.0 && b.active == [] && b.failure.None?
    ensures OpenAll(b, time, [p]).failure.None? && OpenAll(b, time, [p]).active == [p]
  {
    SumOfTwo(p, p, MarginOf);
    SumOfTwo(p, p, EntryCostOf);
    var d := Register(ChargeFor(b, [p]), [p]);
    OpenKeepsFailure(ChargeFor(b, [p]), time, [p]);
    OpenKeepsFailure(d, time, [p]);
    OneRegistered(ChargeFor(b, [p]), p);
    OneActive(d, time, p);
  }

  lemma OneRegistered(b: Book, p: Position)
    ensures Register(b, [p]).active == b.active
  {
    assert [p][..0] == [];
    assert Register(b, []) == b;
  }

  lemma OneActive(d: Book, time: int, p: Position)
    requires d.active == []
    ensures Activate(d, time, [p]).active == [p]
  {
    assert [p][..0] == [];
    assert Activate(d, time, []) == d && [] + [p] == [p];
  }

  // ---- The simulator ----

  /**
   * The script's run from the starting balance on. Until a stop-out the account balances in every state; a run
   * that ends without failure accounts for every selected position, and in full when all recorded positions
   * settle.
   */
  method RunAccount(plan: LotPlan, groups: seq<Group>, start: real, bars: seq<Bar>, contractSize: real,
      stopOutLevel: real) returns (account: Simulator)
    requires AllFit(plan, groups) && SoundGroups(groups)
    ensures fresh(account) && account.Valid() && account.Ended(bars, contractSize, stopOutLevel)
    ensures account.plan == plan && account.groups == groups && account.start == start
    ensures Balanced(account.states[account.eventIndex], start)
    ensures account.failure.None? ==> account.eventIndex == |account.times| && Accounted(account.View(), start)
    ensures account.failure.None? && AllSettle(groups) ==> EarnedInFull(account.View(), start)
  {
    account := new Simulator(plan, groups, start);
    account.Simulate(bars, contractSize, stopOutLevel);
    EventTimesAreComplete(groups);
    account.StatesAreHandled(account.eventIndex);
    HandledBalances(plan, groups, account.times, start, account.eventIndex);
    assert account.times[..|account.times|] == account.times;
    RunConserves(plan, groups, start);
    if AllSettle(groups) {
      SettledInputsEndFlat(plan, groups, start);
    }
  }

  lemma HandledBalances(plan: LotPlan, groups: seq<Group>, times: seq<int>, start: real, k: nat)
    requires AllFit(plan, groups) && SoundGroups(groups) && Covers(groups, times) && Ascending(times) && k <= |times|
    ensures Balanced(HandleAll(plan, groups, Opening(start), times[..k]), start)
  {
    if k > 0 {
      EveryStateIsBalanced(plan, groups, times, start, k);
    }
  }
}
